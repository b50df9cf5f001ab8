/** The extraction phase: gathers the images of a source (a zip or tar
    archive, a directory, a single image or a dataset name) into the
    extraction directory, keeping only files that validate as images. */
module Extractor {
  import opened Common
  import opened Text
  import opened Paths
  import opened Files
  import opened StringUtils

  /** The configuration keys the extractor reads. */
  datatype ExtractorConfig = ExtractorConfig(
    validImageExtensions: Option<seq<string>>,
    extractNestedArchives: Option<bool>,
    sampleMode: Option<bool>,
    sampleSize: Option<int>,
    sampleRandom: Option<bool>)

  /** The configuration with its defaults filled in, and whether the
      HuggingFace helper could be imported. */
  datatype Settings = Settings(
    validExtensions: seq<string>,
    extractNested: bool,
    sampleMode: bool,
    sampleSize: int,
    sampleRandom: bool,
    hfAvailable: bool)

  function SettingsOf(c: ExtractorConfig, hfAvailable: bool): (s: Settings)
    ensures c.validImageExtensions.None? ==> s.validExtensions == DefaultImageExtensions
    ensures s.extractNested <==> c.extractNestedArchives == Some(true)
    ensures s.sampleMode <==> c.sampleMode == Some(true)
    ensures c.sampleSize.None? ==> s.sampleSize == 100
    ensures s.sampleRandom <==> c.sampleRandom != Some(false)
  {
    Settings(
      if c.validImageExtensions.Some? then c.validImageExtensions.value else DefaultImageExtensions,
      c.extractNestedArchives == Some(true),
      c.sampleMode == Some(true),
      if c.sampleSize.Some? then c.sampleSize.value else 100,
      c.sampleRandom != Some(false),
      hfAvailable)
  }

  // ------------------------------------------------------------ archives

  /** The archive kind named by the lower-cased path. */
  function ArchiveKindOf(p: string): Result<ArchiveKind>
  {
    var l := Lower(p);
    if EndsWith(l, ".zip") then Ok(ZipArchive)
    else if EndsWith(l, ".tar") || EndsWith(l, ".tar.gz") || EndsWith(l, ".tgz") then Ok(TarArchive)
    else Err("Unsupported archive format: " + p)
  }

  /** The kind depends on the suffix alone, whatever its letter case:
      a lower-cased path names the same kind, and exactly the paths
      ending in one of the four suffixes (in any case) are accepted. */
  lemma ArchiveKindIgnoresCase(p: string)
    ensures ArchiveKindOf(Lower(p)).Ok? <==> ArchiveKindOf(p).Ok?
    ensures ArchiveKindOf(p).Ok? ==> ArchiveKindOf(Lower(p)).value == ArchiveKindOf(p).value
    ensures ArchiveKindOf(p).Ok? <==>
      EndsWith(Lower(p), ".zip") || EndsWith(Lower(p), ".tar") ||
      EndsWith(Lower(p), ".tar.gz") || EndsWith(Lower(p), ".tgz")
    ensures ArchiveKindOf(p).Err? ==> ArchiveKindOf(p).error == "Unsupported archive format: " + p
  {
    LowerIdempotent(p);
  }

  /** Whether a member is written out: a zip member that does not name a
      directory and either has an image extension or nested extraction is
      on; a tar member that is a regular file. */
  predicate Selects(kind: ArchiveKind, m: Member, s: Settings)
  {
    match kind
    case ZipArchive => !EndsWith(m.name, "/") && (s.extractNested || IsImageFile(m.name, s.validExtensions))
    case TarArchive => m.regular
  }

  /** The members the loop writes out, in archive order. */
  function Chosen(members: seq<Member>, kind: ArchiveKind, s: Settings): (r: seq<Member>)
    ensures |r| <= |members|
    decreases |members|
  {
    if members == [] then []
    else
      var rest := Chosen(members[1..], kind, s);
      if Selects(kind, members[0], s) then [members[0]] + rest else rest
  }

  /** A member is written out exactly when it is selected. */
  lemma {:induction false} ChosenIff(members: seq<Member>, kind: ArchiveKind, s: Settings, m: Member)
    ensures m in Chosen(members, kind, s) <==> m in members && Selects(kind, m, s)
    decreases |members|
  {
    if members != [] {
      ChosenIff(members[1..], kind, s, m);
      assert m in members <==> m == members[0] || m in members[1..];
    }
  }

  /** The paths the loop lists for the written members:
      `os.path.join(output_dir, name)`, the member name as stored. */
  function Destinations(chosen: seq<Member>, out: string): (ds: seq<string>)
    ensures |ds| == |chosen|
    ensures forall i :: 0 <= i < |chosen| ==> ds[i] == Join(out, chosen[i].name)
  {
    seq(|chosen|, i requires 0 <= i < |chosen| => Join(out, chosen[i].name))
  }

  /** The name components `ZipFile.extract` keeps: all but the empty, "."
      and ".." ones. */
  function SafeParts(xs: seq<string>): (r: seq<string>)
    ensures forall i :: 0 <= i < |r| ==> r[i] != "" && r[i] != "." && r[i] != ".."
    ensures forall i :: 0 <= i < |r| ==> r[i] in xs
  {
    if xs == [] then []
    else if xs[0] == "" || xs[0] == "." || xs[0] == ".." then SafeParts(xs[1..])
    else [xs[0]] + SafeParts(xs[1..])
  }

  /** `"/".join(parts)`. */
  function JoinSlash(ps: seq<string>): string
  {
    if ps == [] then ""
    else if |ps| == 1 then ps[0]
    else ps[0] + "/" + JoinSlash(ps[1..])
  }

  /** A member name that would reach outside the output directory when
      joined to it: an absolute name, or one with a ".." component. */
  predicate Escapes(name: string)
  {
    StartsWith(name, "/") || ".." in Split(name, '/')
  }

  /** Where `zip_ref.extract(name, output_dir)` writes: the name with its
      empty, "." and ".." components dropped, under the output directory
      (the directory itself when nothing is left). A name that does not
      escape is kept as spelled, since doubled slashes and "." components
      only respell the same file. */
  function ZipTarget(out: string, name: string): string
  {
    if !Escapes(name) then Join(out, name)
    else
      var a := JoinSlash(SafeParts(Split(name, '/')));
      if a == "" then out else Join(out, a)
  }

  /** Extraction from a zip never leaves the output directory, whatever
      the member is called. */
  lemma ZipTargetInside(out: string, name: string)
    requires out != "" && !EndsWith(out, "/")
    ensures ZipTarget(out, name) == out || Under(ZipTarget(out, name), out)
  {
    var b := name;
    if Escapes(name) {
      var ps := SafeParts(Split(name, '/'));
      b := JoinSlash(ps);
      if ps != [] {
        assert ps[0] in Split(name, '/');
        NoSlashInSplit(name, ps[0]);
        assert b[0] == ps[0][0];
      }
    }
    if b != "" && ZipTarget(out, name) != out {
      assert ZipTarget(out, name) == Join(out, b) == out + "/" + b;
      assert (out + "/" + b)[..|out| + 1] == out + "/";
    }
  }

  /** A one-component name behind a leading "/" or "../" (`lead` is ""
      or "..") is written directly under the output directory, while the
      plain join the loop lists is the absolute name itself, or a path
      that climbs out of the output directory. */
  lemma EscapingZipMember(out: string, name: string, lead: string, base: string)
    requires name == lead + "/" + base
    requires lead == "" || lead == ".."
    requires base != "" && base != "." && base != ".." && '/' !in base
    requires out != "" && !EndsWith(out, "/")
    ensures ZipTarget(out, name) == out + "/" + base
    ensures Join(out, name) == if lead == "" then name else out + "/../" + base
  {
    assert name == lead + ['/'] + base;
    SplitAt(lead, '/', base);
    var ps := Split(name, '/');
    assert ps == [lead, base];
    assert Escapes(name) by {
      if lead == "" { assert name[..1] == "/"; } else { assert ps[0] == ".."; }
    }
    assert ps[1..] == [base];
    assert SafeParts(ps) == [base] by { assert SafeParts(ps[1..][1..]) == []; }
    assert !StartsWith(base, "/") by { assert base[0] != '/'; }
    if lead == ".." {
      assert !StartsWith(name, "/") by { assert name[0] == '.'; }
      assert out + "/" + name == out + "/../" + base;
    }
  }

  /** Where the loop writes a member: `ZipFile.extract` as above; for a
      tar, at the plain join. */
  function WriteTarget(kind: ArchiveKind, out: string, name: string): string
  {
    if kind == ZipArchive then ZipTarget(out, name) else Join(out, name)
  }

  /** The write locations of the chosen members, in order. */
  function Targets(chosen: seq<Member>, out: string, kind: ArchiveKind): (ts: seq<string>)
    ensures |ts| == |chosen|
    ensures forall i :: 0 <= i < |chosen| ==> ts[i] == WriteTarget(kind, out, chosen[i].name)
  {
    seq(|chosen|, i requires 0 <= i < |chosen| => WriteTarget(kind, out, chosen[i].name))
  }

  /** The filesystem and the list of written paths while members are
      extracted. */
  datatype Extraction = Extraction(fs: FileSystem, paths: seq<string>)

  /** Writing the chosen members from the next one on: each is written at
      its target and listed at the plain join; a member whose target is a
      directory raises. */
  function WriteMembers(x: Extraction, chosen: seq<Member>, out: string, kind: ArchiveKind): Result<Extraction>
    decreases |chosen|
  {
    if chosen == [] then Ok(x)
    else
      var dest := WriteTarget(kind, out, chosen[0].name);
      if IsDir(x.fs, dest) then Err("[Errno 21] Is a directory: '" + dest + "'")
      else WriteMembers(Extraction(x.fs[dest := File(chosen[0].content)], x.paths + [Join(out, chosen[0].name)]),
                        chosen[1..], out, kind)
  }

  /** The archive at `p` read as `kind` and its members extracted into
      `out`; a missing file or one that is not such an archive raises. */
  function ExtractArchive(fs: FileSystem, p: string, out: string, kind: ArchiveKind, s: Settings): Result<Extraction>
  {
    if !IsFile(fs, p) then Err("[Errno 2] No such file or directory: '" + p + "'")
    else if !(fs[p].content.Archive? && fs[p].content.kind == kind) then
      Err(if kind == ZipArchive then "Invalid or corrupt ZIP file: " + p else "Invalid or corrupt TAR file: " + p)
    else WriteMembers(Extraction(fs, []), Chosen(fs[p].content.members, kind, s), out, kind)
  }

  /** `_extract_zip(zip_path, output_dir)` and `_extract_tar(tar_path,
      output_dir)`: the member loop. */
  method ExtractMembers(fs: FileSystem, p: string, out: string, kind: ArchiveKind, s: Settings)
    returns (r: Result<Extraction>)
    ensures r == ExtractArchive(fs, p, out, kind, s)
  {
    if !IsFile(fs, p) {
      return Err("[Errno 2] No such file or directory: '" + p + "'");
    }
    if !(fs[p].content.Archive? && fs[p].content.kind == kind) {
      return Err(if kind == ZipArchive then "Invalid or corrupt ZIP file: " + p else "Invalid or corrupt TAR file: " + p);
    }
    var members := fs[p].content.members;
    var current := fs;
    var extracted: seq<string> := [];
    var i := 0;
    while i < |members|
      invariant 0 <= i <= |members|
      invariant WriteMembers(Extraction(current, extracted), Chosen(members[i..], kind, s), out, kind) ==
        WriteMembers(Extraction(fs, []), Chosen(members, kind, s), out, kind)
    {
      assert members[i..][1..] == members[i + 1..];
      var m := members[i];
      if Selects(kind, m, s) {
        var dest := WriteTarget(kind, out, m.name);
        if IsDir(current, dest) {
          return Err("[Errno 21] Is a directory: '" + dest + "'");
        }
        current := current[dest := File(m.content)];
        extracted := extracted + [Join(out, m.name)];
      }
      i := i + 1;
    }
    r := Ok(Extraction(current, extracted));
  }

  /** Writing fails exactly when a target is a directory. */
  lemma {:induction false} WriteMembersOk(x: Extraction, chosen: seq<Member>, out: string, kind: ArchiveKind)
    ensures WriteMembers(x, chosen, out, kind).Ok? <==>
      forall d :: d in Targets(chosen, out, kind) ==> !IsDir(x.fs, d)
    decreases |chosen|
  {
    if chosen != [] {
      var dest := WriteTarget(kind, out, chosen[0].name);
      TargetsCons(chosen, out, kind);
      if !IsDir(x.fs, dest) {
        var next := Extraction(x.fs[dest := File(chosen[0].content)], x.paths + [Join(out, chosen[0].name)]);
        WriteMembersOk(next, chosen[1..], out, kind);
        assert forall d :: IsDir(next.fs, d) <==> IsDir(x.fs, d);
      }
    }
  }

  lemma DestinationsCons(chosen: seq<Member>, out: string)
    requires chosen != []
    ensures Destinations(chosen, out) == [Join(out, chosen[0].name)] + Destinations(chosen[1..], out)
  {
  }

  lemma TargetsCons(chosen: seq<Member>, out: string, kind: ArchiveKind)
    requires chosen != []
    ensures Targets(chosen, out, kind) == [WriteTarget(kind, out, chosen[0].name)] + Targets(chosen[1..], out, kind)
  {
  }

  /** A successful write lists the plain joins after the paths so far. */
  lemma {:induction false} WriteMembersPaths(x: Extraction, chosen: seq<Member>, out: string, kind: ArchiveKind)
    requires WriteMembers(x, chosen, out, kind).Ok?
    ensures WriteMembers(x, chosen, out, kind).value.paths == x.paths + Destinations(chosen, out)
    decreases |chosen|
  {
    if chosen != [] {
      var dest := WriteTarget(kind, out, chosen[0].name);
      var listed := Join(out, chosen[0].name);
      var rest := Destinations(chosen[1..], out);
      DestinationsCons(chosen, out);
      var next := Extraction(x.fs[dest := File(chosen[0].content)], x.paths + [listed]);
      assert WriteMembers(x, chosen, out, kind) == WriteMembers(next, chosen[1..], out, kind);
      WriteMembersPaths(next, chosen[1..], out, kind);
      assert next.paths + rest == x.paths + ([listed] + rest);
    }
  }

  /** A successful write leaves a regular file at each target. */
  lemma {:induction false} WriteMembersFiles(x: Extraction, chosen: seq<Member>, out: string, kind: ArchiveKind)
    requires WriteMembers(x, chosen, out, kind).Ok?
    ensures var r := WriteMembers(x, chosen, out, kind).value;
      forall d :: d in Targets(chosen, out, kind) ==> IsFile(r.fs, d)
    decreases |chosen|
  {
    if chosen != [] {
      var dest := WriteTarget(kind, out, chosen[0].name);
      TargetsCons(chosen, out, kind);
      var next := Extraction(x.fs[dest := File(chosen[0].content)], x.paths + [Join(out, chosen[0].name)]);
      WriteMembersFiles(next, chosen[1..], out, kind);
      WriteMembersFrame(next, chosen[1..], out, kind);
    }
  }

  /** A successful write lists the plain joins after the paths so far
      and leaves a regular file at each target. */
  lemma WriteMembersResult(x: Extraction, chosen: seq<Member>, out: string, kind: ArchiveKind)
    requires WriteMembers(x, chosen, out, kind).Ok?
    ensures var r := WriteMembers(x, chosen, out, kind).value;
      r.paths == x.paths + Destinations(chosen, out) &&
      forall d :: d in Targets(chosen, out, kind) ==> IsFile(r.fs, d)
  {
    WriteMembersPaths(x, chosen, out, kind);
    WriteMembersFiles(x, chosen, out, kind);
  }

  /** Writing changes nothing but the targets. */
  lemma {:induction false} WriteMembersFrame(x: Extraction, chosen: seq<Member>, out: string, kind: ArchiveKind)
    requires WriteMembers(x, chosen, out, kind).Ok?
    ensures var r := WriteMembers(x, chosen, out, kind).value;
      forall q :: q !in Targets(chosen, out, kind) ==>
        (q in r.fs <==> q in x.fs) && (q in x.fs ==> r.fs[q] == x.fs[q])
    decreases |chosen|
  {
    if chosen != [] {
      var dest := WriteTarget(kind, out, chosen[0].name);
      TargetsCons(chosen, out, kind);
      var next := Extraction(x.fs[dest := File(chosen[0].content)], x.paths + [Join(out, chosen[0].name)]);
      WriteMembersFrame(next, chosen[1..], out, kind);
    }
  }

  /** For a tar, and for zip members that do not escape, the listed paths
      are the targets. */
  lemma TargetsAreDestinations(chosen: seq<Member>, out: string, kind: ArchiveKind)
    requires kind == ZipArchive ==> forall m :: m in chosen ==> !Escapes(m.name)
    ensures Targets(chosen, out, kind) == Destinations(chosen, out)
  {
    assert forall i :: 0 <= i < |chosen| ==> chosen[i] in chosen;
  }

  /** The comprehension of `extract_from_archive`: the extracted paths
      with an image extension, in order. */
  function ImagePaths(paths: seq<string>, exts: seq<string>): (r: seq<string>)
    ensures |r| <= |paths|
    ensures forall p :: p in r <==> p in paths && IsImageFile(p, exts)
  {
    if paths == [] then []
    else
      var rest := ImagePaths(paths[1..], exts);
      assert forall p :: p in paths <==> p == paths[0] || p in paths[1..];
      if IsImageFile(paths[0], exts) then [paths[0]] + rest else rest
  }

  /** The paths that validate as images, in order. */
  function Validated(fs: FileSystem, paths: seq<string>): (r: seq<string>)
    ensures |r| <= |paths|
  {
    if paths == [] then []
    else
      var last := paths[|paths| - 1];
      Validated(fs, paths[..|paths| - 1]) + (if IsValidImage(fs, last) then [last] else [])
  }

  /** Validating one more path appends it when it is a valid image. */
  lemma ValidatedSnoc(fs: FileSystem, ps: seq<string>, p: string)
    ensures Validated(fs, ps + [p]) == Validated(fs, ps) + (if IsValidImage(fs, p) then [p] else [])
  {
    assert (ps + [p])[..|ps|] == ps;
  }

  /** Exactly the valid images are kept. */
  lemma {:induction false} ValidatedMembers(fs: FileSystem, a: seq<string>)
    ensures forall p :: p in Validated(fs, a) <==> p in a && IsValidImage(fs, p)
    decreases |a|
  {
    if a != [] {
      var init := a[..|a| - 1];
      assert a == init + [a[|a| - 1]];
      ValidatedMembers(fs, init);
    }
  }

  /** Validation distributes over concatenation, so the result keeps the
      input order. */
  lemma {:induction false} ValidatedAppend(fs: FileSystem, a: seq<string>, b: seq<string>)
    ensures Validated(fs, a + b) == Validated(fs, a) + Validated(fs, b)
    decreases |b|
  {
    if b != [] {
      var init := b[..|b| - 1];
      var last := b[|b| - 1];
      assert b == init + [last];
      assert a + b == (a + init) + [last];
      ValidatedAppend(fs, a, init);
      ValidatedSnoc(fs, a + init, last);
      ValidatedSnoc(fs, init, last);
    } else {
      assert a + b == a;
    }
  }

  /** The validation loop of `extract_from_archive`. */
  method KeepValid(fs: FileSystem, paths: seq<string>) returns (valid: seq<string>)
    ensures valid == Validated(fs, paths)
  {
    valid := [];
    var i := 0;
    while i < |paths|
      invariant 0 <= i <= |paths|
      invariant valid == Validated(fs, paths[..i])
    {
      assert paths[..i + 1] == paths[..i] + [paths[i]];
      ValidatedSnoc(fs, paths[..i], paths[i]);
      if IsValidImage(fs, paths[i]) {
        valid := valid + [paths[i]];
      }
      i := i + 1;
    }
    assert paths[..|paths|] == paths;
  }

  /** `extract_from_archive(archive_path, output_dir)`: the new filesystem
      and the valid image paths. */
  function ExtractFromArchive(fs: FileSystem, p: string, out: string, s: Settings): Result<(FileSystem, seq<string>)>
  {
    var made := MakeDirs(fs, out);
    if made.Err? then Err(made.error)
    else
      var kind := ArchiveKindOf(p);
      if kind.Err? then Err(kind.error)
      else
        var x := ExtractArchive(made.value, p, out, kind.value, s);
        if x.Err? then Err(x.error)
        else Ok((x.value.fs, Validated(x.value.fs, ImagePaths(x.value.paths, s.validExtensions))))
  }

  /** An archive extraction that succeeds returns exactly the
      destinations of selected members that have an image extension and
      validate in the resulting filesystem; it fails when the output
      directory cannot be made, the suffix names no archive kind, the file
      is not an archive of that kind, or a destination is a directory. */
  lemma ExtractFromArchiveFacts(fs: FileSystem, p: string, out: string, s: Settings)
    ensures var r := ExtractFromArchive(fs, p, out, s);
      var made := MakeDirs(fs, out);
      var kind := ArchiveKindOf(p);
      (r.Ok? <==>
        made.Ok? && kind.Ok? && IsFile(made.value, p) && made.value[p].content.Archive? &&
        made.value[p].content.kind == kind.value &&
        forall d :: d in Targets(Chosen(made.value[p].content.members, kind.value, s), out, kind.value) ==> !IsDir(made.value, d)) &&
      (r.Ok? ==>
        var chosen := Chosen(made.value[p].content.members, kind.value, s);
        var ts := Targets(chosen, out, kind.value);
        (forall q :: q in r.value.1 <==>
          q in Destinations(chosen, out) && IsImageFile(q, s.validExtensions) && IsValidImage(r.value.0, q)) &&
        (forall q :: q in ts ==> IsFile(r.value.0, q)) &&
        (forall q :: q !in ts ==> (q in r.value.0 <==> q in made.value) && (q in made.value ==> r.value.0[q] == made.value[q])))
  {
    var made := MakeDirs(fs, out);
    var kind := ArchiveKindOf(p);
    if made.Ok? && kind.Ok? && IsFile(made.value, p) && made.value[p].content.Archive? &&
       made.value[p].content.kind == kind.value {
      var chosen := Chosen(made.value[p].content.members, kind.value, s);
      WriteMembersOk(Extraction(made.value, []), chosen, out, kind.value);
      var x := WriteMembers(Extraction(made.value, []), chosen, out, kind.value);
      if x.Ok? {
        WriteMembersResult(Extraction(made.value, []), chosen, out, kind.value);
        WriteMembersFrame(Extraction(made.value, []), chosen, out, kind.value);
        assert x.value.paths == Destinations(chosen, out);
        ValidatedMembers(x.value.fs, ImagePaths(x.value.paths, s.validExtensions));
      }
    }
  }

  // ------------------------------------------------------------ directories

  /** One file reported by `os.walk(directory_path)`: the directory it
      sits in, relative to the walked directory ("." for the top), and
      its name. The walk's order is the listing's order. */
  datatype WalkEntry = WalkEntry(rel: string, file: string)

  /** `os.path.join(root, file)` for the walked directory `dir`. */
  function SourceOf(dir: string, w: WalkEntry): string
  {
    if w.rel == "." then Join(dir, w.file) else Join(Join(dir, w.rel), w.file)
  }

  /** `os.path.join(os.path.join(output_dir, rel_path), file)`. */
  function DestOf(out: string, w: WalkEntry): string
  {
    Join(Join(out, w.rel), w.file)
  }

  /** The walked files with an image extension, in walk order. */
  function NamedEntries(walk: seq<WalkEntry>, exts: seq<string>): (r: seq<WalkEntry>)
    ensures |r| <= |walk|
    ensures forall w :: w in r ==> w in walk
    decreases |walk|
  {
    if walk == [] then []
    else
      var rest := NamedEntries(walk[1..], exts);
      if IsImageFile(walk[0].file, exts) then [walk[0]] + rest else rest
  }

  /** The loop of `extract_from_directory` from the next image-named file
      on: a valid image gets its destination directory and is copied
      there; an invalid one is skipped. */
  function CopySteps(x: Extraction, named: seq<WalkEntry>, dir: string, out: string): Result<Extraction>
    decreases |named|
  {
    if named == [] then Ok(x)
    else
      var w := named[0];
      var src := SourceOf(dir, w);
      if !IsValidImage(x.fs, src) then CopySteps(x, named[1..], dir, out)
      else
        var made := MakeDirs(x.fs, Join(out, w.rel));
        if made.Err? then Err(made.error)
        else
          var copied := Copy(made.value, src, DestOf(out, w));
          if copied.Err? then Err(copied.error)
          else CopySteps(Extraction(copied.value, x.paths + [DestOf(out, w)]), named[1..], dir, out)
  }

  /** `extract_from_directory(directory_path, output_dir)`. */
  function ExtractFromDirectory(fs: FileSystem, dir: string, out: string, walk: seq<WalkEntry>, s: Settings): Result<Extraction>
  {
    var made := MakeDirs(fs, out);
    if made.Err? then Err(made.error)
    else CopySteps(Extraction(made.value, []), NamedEntries(walk, s.validExtensions), dir, out)
  }

  /** The loop of `extract_from_directory`. */
  method CopyFromDirectory(fs: FileSystem, dir: string, out: string, walk: seq<WalkEntry>, s: Settings)
    returns (r: Result<Extraction>)
    ensures r == ExtractFromDirectory(fs, dir, out, walk, s)
  {
    var made := MakeDirs(fs, out);
    if made.Err? {
      return Err(made.error);
    }
    var current := made.value;
    var copied: seq<string> := [];
    var i := 0;
    while i < |walk|
      invariant 0 <= i <= |walk|
      invariant CopySteps(Extraction(current, copied), NamedEntries(walk[i..], s.validExtensions), dir, out) ==
        CopySteps(Extraction(made.value, []), NamedEntries(walk, s.validExtensions), dir, out)
    {
      assert walk[i..][1..] == walk[i + 1..];
      var w := walk[i];
      if IsImageFile(w.file, s.validExtensions) {
        var src := SourceOf(dir, w);
        if IsValidImage(current, src) {
          var destDir := MakeDirs(current, Join(out, w.rel));
          if destDir.Err? {
            return Err(destDir.error);
          }
          var dest := DestOf(out, w);
          var c := Copy(destDir.value, src, dest);
          if c.Err? {
            return Err(c.error);
          }
          current := c.value;
          copied := copied + [dest];
        }
      }
      i := i + 1;
    }
    r := Ok(Extraction(current, copied));
  }

  /** A walked file that lies outside the output directory and whose
      relative directory is a plain relative path. */
  ghost predicate EntryApart(dir: string, out: string, w: WalkEntry)
  {
    w.rel != "" && !StartsWith(w.rel, "/") && !EndsWith(w.rel, "/") &&
    w.file != "" && '/' !in w.file &&
    SourceOf(dir, w) != out && !Under(SourceOf(dir, w), out)
  }

  /** The destinations of the walked files that are valid images in
      `fs`, in walk order. */
  function DirDestinations(fs: FileSystem, named: seq<WalkEntry>, dir: string, out: string): (ds: seq<string>)
    ensures |ds| <= |named|
    decreases |named|
  {
    if named == [] then []
    else
      var rest := DirDestinations(fs, named[1..], dir, out);
      if IsValidImage(fs, SourceOf(dir, named[0])) then [DestOf(out, named[0])] + rest else rest
  }

  /** The destination is `<out>/<rel>/<file>`, inside `out`. */
  lemma DestInside(out: string, w: WalkEntry)
    requires out != "" && !EndsWith(out, "/")
    requires w.rel != "" && !StartsWith(w.rel, "/") && !EndsWith(w.rel, "/") && w.file != "" && '/' !in w.file
    ensures Join(out, w.rel) == out + "/" + w.rel && Under(Join(out, w.rel), out)
    ensures DestOf(out, w) == Join(out, w.rel + "/" + w.file)
    ensures !StartsWith(w.rel + "/" + w.file, "/")
  {
    var d := Join(out, w.rel);
    assert d == out + "/" + w.rel;
    assert d[..|out + "/"|] == out + "/";
    assert EndsWith(d, "/") <==> EndsWith(w.rel, "/") by {
      assert d[|d| - 1] == w.rel[|w.rel| - 1];
    }
    assert !StartsWith(w.file, "/") by {
      assert w.file[0] in w.file;
    }
    assert (w.rel + "/" + w.file)[0] == w.rel[0];
    assert d + "/" + w.file == out + "/" + (w.rel + "/" + w.file);
  }

  /** One copy step for a valid image stays inside `out` and cannot fail
      midway: making the destination directory and copying succeed, or
      making the directory fails. */
  lemma CopyStepInside(fs: FileSystem, fs0: FileSystem, dir: string, out: string, w: WalkEntry)
    requires out != "" && !EndsWith(out, "/") && EntryApart(dir, out, w)
    requires SameOutside(fs, fs0, out) && IsDir(fs, out) && IsValidImage(fs0, SourceOf(dir, w))
    ensures var made := MakeDirs(fs, Join(out, w.rel));
      made.Ok? ==>
        IsDir(made.value, out) && SameOutside(made.value, fs0, out) &&
        var c := Copy(made.value, SourceOf(dir, w), DestOf(out, w));
        c.Ok? && SameOutside(c.value, fs0, out) && IsDir(c.value, out)
  {
    DestInside(out, w);
    var made := MakeDirs(fs, Join(out, w.rel));
    if made.Ok? {
      assert Join(out, w.rel) != out;
      CopyKeepsOutside(made.value, fs0, SourceOf(dir, w), out, w.rel + "/" + w.file);
    }
  }

  /** The first walked file, outside `out`, is a valid image in the walk's
      filesystem exactly when it is one in the original filesystem. */
  lemma FirstValidSame(x: Extraction, fs0: FileSystem, named: seq<WalkEntry>, dir: string, out: string)
    requires named != [] && EntryApart(dir, out, named[0]) && SameOutside(x.fs, fs0, out)
    ensures IsValidImage(x.fs, SourceOf(dir, named[0])) <==> IsValidImage(fs0, SourceOf(dir, named[0]))
    ensures forall v :: v in named[1..] ==> v in named
  {
    assert forall v :: v in named[1..] ==> v in named;
  }

  /** The step for a first walked file that is a valid image: either
      making its directory fails and so does the walk, or the walk goes on
      from the filesystem after the copy, still unchanged outside `out`. */
  lemma CopyStepValid(x: Extraction, fs0: FileSystem, named: seq<WalkEntry>, dir: string, out: string)
    requires out != "" && !EndsWith(out, "/") && named != [] && EntryApart(dir, out, named[0])
    requires SameOutside(x.fs, fs0, out) && IsDir(x.fs, out) && IsValidImage(x.fs, SourceOf(dir, named[0]))
    requires IsValidImage(fs0, SourceOf(dir, named[0]))
    ensures var w := named[0];
      var made := MakeDirs(x.fs, Join(out, w.rel));
      (made.Err? ==> CopySteps(x, named, dir, out).Err?) &&
      (made.Ok? ==>
        var c := Copy(made.value, SourceOf(dir, w), DestOf(out, w));
        c.Ok? && SameOutside(c.value, fs0, out) && IsDir(c.value, out) &&
        CopySteps(x, named, dir, out) ==
          CopySteps(Extraction(c.value, x.paths + [DestOf(out, w)]), named[1..], dir, out))
  {
    CopyStepInside(x.fs, fs0, dir, out, named[0]);
  }

  /** With every walked file outside `out`, a successful walk copies
      exactly the files that are valid images in the original filesystem,
      in walk order. */
  lemma {:induction false} CopyStepsPaths(x: Extraction, fs0: FileSystem, named: seq<WalkEntry>, dir: string, out: string)
    requires out != "" && !EndsWith(out, "/")
    requires forall w :: w in named ==> EntryApart(dir, out, w)
    requires SameOutside(x.fs, fs0, out) && IsDir(x.fs, out)
    ensures var r := CopySteps(x, named, dir, out);
      r.Ok? ==> r.value.paths == x.paths + DirDestinations(fs0, named, dir, out)
    decreases |named|, 1
  {
    if named != [] {
      var src := SourceOf(dir, named[0]);
      assert EntryApart(dir, out, named[0]);
      FirstValidSame(x, fs0, named, dir, out);
      if !IsValidImage(x.fs, src) {
        assert CopySteps(x, named, dir, out) == CopySteps(x, named[1..], dir, out);
        assert DirDestinations(fs0, named, dir, out) == DirDestinations(fs0, named[1..], dir, out);
        CopyStepsPaths(x, fs0, named[1..], dir, out);
      } else {
        CopyStepsPathsValid(x, fs0, named, dir, out);
      }
    }
  }

  /** The case of `CopyStepsPaths` where the first walked file is a valid
      image. */
  lemma {:induction false} CopyStepsPathsValid(x: Extraction, fs0: FileSystem, named: seq<WalkEntry>, dir: string, out: string)
    requires out != "" && !EndsWith(out, "/") && named != []
    requires forall w :: w in named ==> EntryApart(dir, out, w)
    requires SameOutside(x.fs, fs0, out) && IsDir(x.fs, out)
    requires IsValidImage(x.fs, SourceOf(dir, named[0]))
    ensures var r := CopySteps(x, named, dir, out);
      r.Ok? ==> r.value.paths == x.paths + DirDestinations(fs0, named, dir, out)
    decreases |named|, 0
  {
    var w := named[0];
    assert EntryApart(dir, out, w);
    FirstValidSame(x, fs0, named, dir, out);
    CopyStepValid(x, fs0, named, dir, out);
    var made := MakeDirs(x.fs, Join(out, w.rel));
    if made.Ok? {
      var c := Copy(made.value, SourceOf(dir, w), DestOf(out, w));
      var next := Extraction(c.value, x.paths + [DestOf(out, w)]);
      var rest := DirDestinations(fs0, named[1..], dir, out);
      assert CopySteps(x, named, dir, out) == CopySteps(next, named[1..], dir, out);
      assert DirDestinations(fs0, named, dir, out) == [DestOf(out, w)] + rest;
      assert next.paths + rest == x.paths + ([DestOf(out, w)] + rest);
      CopyStepsPaths(next, fs0, named[1..], dir, out);
    }
  }

  /** With every walked file outside `out`, a successful walk touches
      nothing outside `out`. */
  lemma {:induction false} CopyStepsFrame(x: Extraction, fs0: FileSystem, named: seq<WalkEntry>, dir: string, out: string)
    requires out != "" && !EndsWith(out, "/")
    requires forall w :: w in named ==> EntryApart(dir, out, w)
    requires SameOutside(x.fs, fs0, out) && IsDir(x.fs, out)
    ensures var r := CopySteps(x, named, dir, out);
      r.Ok? ==> SameOutside(r.value.fs, fs0, out)
    decreases |named|
  {
    if named != [] {
      var w := named[0];
      var src := SourceOf(dir, w);
      assert EntryApart(dir, out, w);
      FirstValidSame(x, fs0, named, dir, out);
      if !IsValidImage(x.fs, src) {
        assert CopySteps(x, named, dir, out) == CopySteps(x, named[1..], dir, out);
        CopyStepsFrame(x, fs0, named[1..], dir, out);
      } else {
        CopyStepValid(x, fs0, named, dir, out);
        var made := MakeDirs(x.fs, Join(out, w.rel));
        if made.Ok? {
          var c := Copy(made.value, src, DestOf(out, w));
          CopyStepsFrame(Extraction(c.value, x.paths + [DestOf(out, w)]), fs0, named[1..], dir, out);
        }
      }
    }
  }

  /** Directory extraction copies each walked image-named file that is a
      valid image to `<out>/<rel>/<file>`, in walk order, and changes
      nothing outside `out`, when every walked file lies outside `out`. */
  lemma ExtractFromDirectoryFacts(fs: FileSystem, dir: string, out: string, walk: seq<WalkEntry>, s: Settings)
    requires out != "" && !EndsWith(out, "/")
    requires forall w :: w in walk ==> EntryApart(dir, out, w)
    ensures var r := ExtractFromDirectory(fs, dir, out, walk, s);
      r.Ok? ==>
        r.value.paths == DirDestinations(fs, NamedEntries(walk, s.validExtensions), dir, out) &&
        SameOutside(r.value.fs, fs, out)
  {
    var made := MakeDirs(fs, out);
    if made.Ok? {
      CopyStepsPaths(Extraction(made.value, []), fs, NamedEntries(walk, s.validExtensions), dir, out);
      CopyStepsFrame(Extraction(made.value, []), fs, NamedEntries(walk, s.validExtensions), dir, out);
    }
  }

  // ------------------------------------------------------------ sample mode

  /** `random.sample(files, k)` for `0 <= k <= |files|`, with the random
      draws supplied: each pick is a position among the files not picked
      yet, `draw[i]` modulo how many remain (0 once the draws run out).
      Every sample `random.sample` can return is given by some draws. */
  function Drawn(files: seq<string>, draw: seq<nat>, k: nat): (r: seq<string>)
    requires k <= |files|
    ensures |r| == k
    ensures multiset(r) <= multiset(files)
    ensures forall p :: p in r ==> p in files
    decreases k
  {
    if k == 0 then []
    else
      var j := (if draw != [] then draw[0] else 0) % |files|;
      var rest := files[..j] + files[j + 1..];
      assert files == files[..j] + [files[j]] + files[j + 1..];
      var tail := Drawn(rest, if draw != [] then draw[1..] else [], k - 1);
      assert forall p :: p in tail ==> p in rest;
      [files[j]] + tail
  }

  /** The sample `process` keeps in sample mode:
      `min(sample_size, len(files))` paths, drawn at random (unless there
      are no more than that many) or the first ones. */
  function Sampled(files: seq<string>, s: Settings, draw: seq<nat>): Result<seq<string>>
  {
    var k := Min(s.sampleSize, |files|);
    if s.sampleRandom then
      if |files| > k then
        if k < 0 then Err("Sample larger than population or is negative")
        else Ok(Drawn(files, draw, k))
      else Ok(files)
    else Ok(SliceTo(files, k))
  }

  /** The sample is drawn from the files, and in sequential mode with a
      non-negative size it is their first `min(sample_size, n)` paths. */
  lemma SampledFacts(files: seq<string>, s: Settings, draw: seq<nat>)
    ensures var r := Sampled(files, s, draw);
      (r.Ok? ==> forall p :: p in r.value ==> p in files) &&
      (r.Ok? ==> |r.value| <= |files|) &&
      (r.Ok? ==> multiset(r.value) <= multiset(files)) &&
      (r.Err? <==> s.sampleRandom && s.sampleSize < 0) &&
      (s.sampleSize >= 0 ==> r.Ok? && |r.value| == Min(s.sampleSize, |files|)) &&
      (!s.sampleRandom && s.sampleSize >= 0 ==> r == Ok(files[..Min(s.sampleSize, |files|)])) &&
      (s.sampleRandom && s.sampleSize >= |files| ==> r == Ok(files))
  {
    var r := Sampled(files, s, draw);
    if r.Ok? && !(s.sampleRandom && |files| > Min(s.sampleSize, |files|)) {
      var i := if s.sampleRandom then |files| else SliceIndex(|files|, Min(s.sampleSize, |files|));
      assert files == files[..i] + files[i..];
    }
  }

  /** The deletion loop of sample mode: every listed file that was not
      sampled and still exists is removed and counted; removing a
      directory fails and is only reported. */
  function RemoveUnsampled(fs: FileSystem, files: seq<string>, sampled: seq<string>): (FileSystem, nat)
  {
    if files == [] then (fs, 0)
    else
      var (fs1, deleted) := RemoveUnsampled(fs, files[..|files| - 1], sampled);
      var f := files[|files| - 1];
      if f !in sampled && IsFile(fs1, f) then (Remove(fs1, f), deleted + 1) else (fs1, deleted)
  }

  method DeleteUnsampled(fs: FileSystem, files: seq<string>, sampled: seq<string>)
    returns (result: FileSystem, deletedCount: nat)
    ensures (result, deletedCount) == RemoveUnsampled(fs, files, sampled)
  {
    result := fs;
    deletedCount := 0;
    var i := 0;
    while i < |files|
      invariant 0 <= i <= |files|
      invariant (result, deletedCount) == RemoveUnsampled(fs, files[..i], sampled)
    {
      assert files[..i + 1][..i] == files[..i];
      var f := files[i];
      if f !in sampled && IsFile(result, f) {
        result := Remove(result, f);
        deletedCount := deletedCount + 1;
      }
      i := i + 1;
    }
    assert files[..|files|] == files;
  }

  /** Exactly the listed, unsampled regular files are removed, each at
      most once. */
  lemma {:induction false} RemoveUnsampledFacts(fs: FileSystem, files: seq<string>, sampled: seq<string>)
    ensures var r := RemoveUnsampled(fs, files, sampled);
      r.0 == fs - (set f | f in files && f !in sampled && IsFile(fs, f)) && r.1 <= |files|
  {
    if files != [] {
      var init := files[..|files| - 1];
      var f := files[|files| - 1];
      assert files == init + [f];
      RemoveUnsampledFacts(fs, init, sampled);
      var gone := set g | g in init && g !in sampled && IsFile(fs, g);
      var all := set g | g in files && g !in sampled && IsFile(fs, g);
      if f !in sampled && IsFile(fs, f) && f !in gone {
        assert all == gone + {f};
      } else {
        assert all == gone;
      }
    }
  }

  // ------------------------------------------------------------ dispatch

  /** What `process` ends with: the filesystem and the extracted paths, an
      exception, or (for an `hf://` source) the dataset name handed to
      the HuggingFace helper, whose download is not part of this
      model. */
  datatype Outcome =
    | Extracted(fs: FileSystem, paths: seq<string>)
    | Failed(error: string)
    | DatasetRequested(fs: FileSystem, name: string)

  /** The single-image route: the file is copied to
      `<output_dir>/<basename>` and that path is the result. */
  function CopySingleFile(fs: FileSystem, source: string, out: string): Outcome
  {
    var dest := Join(out, Basename(source));
    var c := Copy(fs, source, dest);
    if c.Err? then Failed(c.error) else Extracted(c.value, [dest])
  }

  /** The archive route, with sample mode. */
  function ArchiveRoute(fs: FileSystem, source: string, out: string, s: Settings, draw: seq<nat>): Outcome
  {
    var ex := ExtractFromArchive(fs, source, out, s);
    if ex.Err? then Failed(ex.error)
    else if !s.sampleMode then Extracted(ex.value.0, ex.value.1)
    else
      var sample := Sampled(ex.value.1, s, draw);
      if sample.Err? then Failed(sample.error)
      else Extracted(RemoveUnsampled(ex.value.0, ex.value.1, sample.value).0, sample.value)
  }

  /** `process(source_path, output_dir)` as the source has it, where the
      single-image route and the dataset route call methods that do not
      exist, and as evidently intended (`corrected`). */
  function Dispatch(fs: FileSystem, source: string, out: string, s: Settings,
                    walk: seq<WalkEntry>, draw: seq<nat>, corrected: bool): Outcome
  {
    var made := MakeDirs(fs, out);
    if made.Err? then Failed(made.error)
    else
      var fs1 := made.value;
      if IsFile(fs1, source) then
        if IsImageFile(source, s.validExtensions) then
          if corrected then CopySingleFile(fs1, source, out)
          else Failed("'Extractor' object has no attribute 'copy_single_file'")
        else ArchiveRoute(fs1, source, out, s, draw)
      else if IsDir(fs1, source) then
        var r := ExtractFromDirectory(fs1, source, out, walk, s);
        if r.Err? then Failed(r.error) else Extracted(r.value.fs, r.value.paths)
      else if StartsWith(source, "hf://") && s.hfAvailable then
        if corrected then DatasetRequested(fs1, source[5..])
        else Failed("'HuggingFaceManager' object has no attribute 'extract_dataset'")
      else Failed("Invalid source path: " + source)
  }

  /** `process` as written. */
  function ProcessAsWritten(fs: FileSystem, source: string, out: string, s: Settings,
                            walk: seq<WalkEntry>, draw: seq<nat>): Outcome
  {
    Dispatch(fs, source, out, s, walk, draw, false)
  }

  /** `process` with the single-image copy and the dataset call it
      evidently intends. */
  function Process(fs: FileSystem, source: string, out: string, s: Settings,
                   walk: seq<WalkEntry>, draw: seq<nat>): Outcome
  {
    Dispatch(fs, source, out, s, walk, draw, true)
  }

  /** As written, a single image file can never be extracted, and an
      `hf://` source always fails: both routes raise `AttributeError`. */
  lemma AsWrittenMissingMethods(fs: FileSystem, source: string, out: string, s: Settings,
                                walk: seq<WalkEntry>, draw: seq<nat>)
    requires MakeDirs(fs, out).Ok?
    ensures var fs1 := MakeDirs(fs, out).value;
      IsFile(fs1, source) && IsImageFile(source, s.validExtensions) ==>
        ProcessAsWritten(fs, source, out, s, walk, draw) ==
          Failed("'Extractor' object has no attribute 'copy_single_file'")
    ensures var fs1 := MakeDirs(fs, out).value;
      !IsFile(fs1, source) && !IsDir(fs1, source) && StartsWith(source, "hf://") && s.hfAvailable ==>
        ProcessAsWritten(fs, source, out, s, walk, draw) ==
          Failed("'HuggingFaceManager' object has no attribute 'extract_dataset'")
  {
  }

  /** A concrete input: `photo.jpg` given as the source fails as written. */
  lemma AsWrittenSingleImageExample(fs: FileSystem, s: Settings, source: string, out: string)
    requires fs == map["photo.jpg" := File(Image(1024, 768, "JPEG", 5000))]
    requires s == SettingsOf(ExtractorConfig(None, None, None, None, None), false)
    requires source == "photo.jpg" && out == "extracted"
    ensures ProcessAsWritten(fs, source, out, s, [], []).Failed?
  {
    PhotoIsImage();
    assert MakeDirs(fs, out).value == fs[out := Dir];
    assert IsFile(MakeDirs(fs, out).value, source);
    AsWrittenMissingMethods(fs, source, out, s, [], []);
  }

  /** `photo.jpg` has an image extension under the default settings. */
  lemma PhotoIsImage()
    ensures IsImageFile("photo.jpg", SettingsOf(ExtractorConfig(None, None, None, None, None), false).validExtensions)
  {
    assert "photo"[0] != '.';
    StringUtils.ExtensionOfName("photo", "jpg");
    assert "photo.jpg" == "photo" + "." + "jpg";
    assert Lower("jpg") == "jpg";
  }

  /** Corrected, a single image is copied to `<output_dir>/<basename>`,
      which is the one returned path, holding the source's content. */
  lemma SingleImageCopied(fs: FileSystem, source: string, out: string, s: Settings,
                          walk: seq<WalkEntry>, draw: seq<nat>)
    requires out != "" && !EndsWith(out, "/") && source != out && !Under(source, out)
    requires MakeDirs(fs, out).Ok?
    requires IsFile(MakeDirs(fs, out).value, source) && IsImageFile(source, s.validExtensions)
    ensures var r := Process(fs, source, out, s, walk, draw);
      var dest := Join(out, Basename(source));
      r.Extracted? && r.paths == [dest] &&
      IsFile(r.fs, CopyTarget(MakeDirs(fs, out).value, source, dest)) &&
      r.fs[CopyTarget(MakeDirs(fs, out).value, source, dest)] == MakeDirs(fs, out).value[source]
  {
    var fs1 := MakeDirs(fs, out).value;
    var name := Basename(source);
    assert !StartsWith(name, "/") by {
      if name != [] {
        assert name[0] in name;
      }
    }
    CopyIntoDir(fs1, source, out, name);
  }

  /** From an archive without sample mode, every returned path has an
      image extension and is a valid image in the resulting filesystem. */
  lemma ArchiveRouteValid(fs: FileSystem, source: string, out: string, s: Settings,
                          walk: seq<WalkEntry>, draw: seq<nat>)
    requires MakeDirs(fs, out).Ok? && !s.sampleMode
    requires IsFile(MakeDirs(fs, out).value, source) && !IsImageFile(source, s.validExtensions)
    ensures var r := Process(fs, source, out, s, walk, draw);
      r.Extracted? ==> forall p :: p in r.paths ==> IsImageFile(p, s.validExtensions) && IsValidImage(r.fs, p)
  {
    ExtractFromArchiveFacts(MakeDirs(fs, out).value, source, out, s);
  }

  /** In sample mode, the returned paths are drawn from the extracted
      ones (the first ones in sequential mode), and every extracted file
      left out of the sample has been removed while the sampled ones are
      as extraction left them. */
  lemma SampleRouteFacts(fs: FileSystem, source: string, out: string, s: Settings,
                         walk: seq<WalkEntry>, draw: seq<nat>)
    requires MakeDirs(fs, out).Ok? && s.sampleMode
    requires IsFile(MakeDirs(fs, out).value, source) && !IsImageFile(source, s.validExtensions)
    requires ExtractFromArchive(MakeDirs(fs, out).value, source, out, s).Ok?
    ensures var ex := ExtractFromArchive(MakeDirs(fs, out).value, source, out, s).value;
      var r := Process(fs, source, out, s, walk, draw);
      (r.Failed? <==> s.sampleRandom && s.sampleSize < 0) &&
      (s.sampleSize >= 0 ==> r.Extracted? && |r.paths| == Min(s.sampleSize, |ex.1|)) &&
      (r.Extracted? ==> multiset(r.paths) <= multiset(ex.1)) &&
      (r.Extracted? ==>
        (forall p :: p in r.paths ==> p in ex.1) &&
        (!s.sampleRandom && s.sampleSize >= 0 ==> r.paths == ex.1[..Min(s.sampleSize, |ex.1|)]) &&
        (forall p :: p in ex.1 && p !in r.paths ==> !IsFile(r.fs, p)) &&
        (forall p :: p in r.paths && p in ex.0 ==> p in r.fs && r.fs[p] == ex.0[p]))
  {
    var ex := ExtractFromArchive(MakeDirs(fs, out).value, source, out, s).value;
    SampledFacts(ex.1, s, draw);
    var sample := Sampled(ex.1, s, draw);
    if sample.Ok? {
      RemoveUnsampledFacts(ex.0, ex.1, sample.value);
    }
  }

  /** Corrected, an `hf://` source that is neither a file nor a directory
      hands the name after the five-character prefix to the dataset
      helper when it is available; any other such source is invalid. */
  lemma OtherSources(fs: FileSystem, source: string, out: string, s: Settings,
                     walk: seq<WalkEntry>, draw: seq<nat>)
    requires MakeDirs(fs, out).Ok?
    requires !Exists(MakeDirs(fs, out).value, source)
    ensures var r := Process(fs, source, out, s, walk, draw);
      (StartsWith(source, "hf://") && s.hfAvailable ==> r.DatasetRequested? && "hf://" + r.name == source) &&
      (!(StartsWith(source, "hf://") && s.hfAvailable) ==> r == Failed("Invalid source path: " + source))
  {
    if StartsWith(source, "hf://") {
      assert source == source[..5] + source[5..];
    }
  }

  /** A failure to make the output directory ends every route. */
  lemma OutputDirFailure(fs: FileSystem, source: string, out: string, s: Settings,
                         walk: seq<WalkEntry>, draw: seq<nat>)
    ensures MakeDirs(fs, out).Err? <==> out == "" || IsFile(fs, out)
    ensures MakeDirs(fs, out).Err? ==> Process(fs, source, out, s, walk, draw).Failed?
  {
  }
}
