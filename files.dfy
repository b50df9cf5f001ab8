/** The filesystem as the pipeline sees it: a map from path to entry. A file
    either decodes as an image (the image library's answer is part of the
    entry) or does not. */
module Files {
  import opened Common
  import opened Text
  import opened Paths

  /** What a file holds, as far as the pipeline looks: an image the image
      library opens (its dimensions, format name and size in bytes), a file
      it cannot open, a text file, a zip or tar archive with its members
      in archive order, a CSV table (header and rows of cells) or a JSON
      object (its keys in order). */
  datatype Content =
    | Image(width: int, height: int, format: string, size: int)
    | Unreadable(reason: string)
    | Text(text: string)
    | Archive(kind: ArchiveKind, members: seq<Member>)
    | Table(header: seq<string>, rows: seq<seq<Value>>)
    | Document(fields: Dict<Value>)

  datatype ArchiveKind = ZipArchive | TarArchive

  /** An archive member: its stored name, whether it is a regular file (a
      tar member may be a directory or link) and what it holds. */
  datatype Member = Member(name: string, regular: bool, content: Content)

  datatype Entry = Dir | File(content: Content)

  type FileSystem = map<string, Entry>

  predicate Exists(fs: FileSystem, p: string)
  {
    p in fs
  }

  predicate IsFile(fs: FileSystem, p: string)
  {
    p in fs && fs[p].File?
  }

  predicate IsDir(fs: FileSystem, p: string)
  {
    p in fs && fs[p].Dir?
  }

  /** `is_valid_image(p)`: the file exists and the image library opens it. */
  predicate IsValidImage(fs: FileSystem, p: string)
  {
    IsFile(fs, p) && fs[p].content.Image?
  }

  /** `shutil.copy2(src, dst)`: a directory destination receives the file
      under its basename; a missing or non-regular source raises, and so
      does a copy onto the source itself. */
  function Copy(fs: FileSystem, src: string, dst: string): (r: Result<FileSystem>)
    ensures r.Ok? <==> IsFile(fs, src) && CopyTarget(fs, src, dst) != src
    ensures r.Ok? ==> r.value == fs[CopyTarget(fs, src, dst) := fs[src]]
  {
    if !IsFile(fs, src) then Err("No such file or directory: '" + src + "'")
    else if CopyTarget(fs, src, dst) == src then Err("'" + src + "' and '" + dst + "' are the same file")
    else Ok(fs[CopyTarget(fs, src, dst) := fs[src]])
  }

  /** Where `shutil.copy2(src, dst)` writes. */
  function CopyTarget(fs: FileSystem, src: string, dst: string): string
  {
    if IsDir(fs, dst) then Join(dst, Basename(src)) else dst
  }

  /** `os.remove(p)` on an existing file. */
  function Remove(fs: FileSystem, p: string): FileSystem
  {
    fs - {p}
  }

  /** `os.makedirs(d, exist_ok=True)`: an empty name or an existing
      non-directory raises. Only the leaf directory is recorded. */
  function MakeDirs(fs: FileSystem, d: string): (r: Result<FileSystem>)
    ensures r.Ok? <==> d != "" && (d in fs ==> fs[d].Dir?)
    ensures r.Ok? ==>
      (IsDir(r.value, d) && r.value.Keys == fs.Keys + {d} && forall p :: p in fs ==> r.value[p] == fs[p])
  {
    if d == "" then Err("[Errno 2] No such file or directory: ''")
    else if IsDir(fs, d) then Ok(fs)
    else if d in fs then Err("[Errno 17] File exists: '" + d + "'")
    else Ok(fs[d := Dir])
  }

  /** `p` lies strictly inside directory `d`. */
  predicate Under(p: string, d: string)
  {
    StartsWith(p, d + "/")
  }

  /** `shutil.rmtree(d)` when `d` is a directory: the directory and every
      path inside it disappear; anything else is left as it is (the error
      `rmtree` raises on a file is caught by its callers). */
  function RemoveTree(fs: FileSystem, d: string): (r: FileSystem)
    ensures !IsDir(r, d)
    ensures IsDir(fs, d) ==> forall p :: p in r ==> p != d && !Under(p, d)
    ensures forall p :: p in r ==> p in fs && r[p] == fs[p]
    ensures forall p :: p in fs && p != d && !Under(p, d) ==> p in r
    ensures !IsDir(fs, d) ==> r == fs
  {
    if IsDir(fs, d) then map p | p in fs && p != d && !Under(p, d) :: fs[p] else fs
  }

  /** `a` and `b` agree everywhere except at `d` and inside it. */
  ghost predicate SameOutside(a: FileSystem, b: FileSystem, d: string)
  {
    forall p :: p != d && !Under(p, d) ==> (p in a <==> p in b) && (p in a ==> a[p] == b[p])
  }

  /** A copy to `<out>/<name>` for a relative `name` lands inside `out`,
      whether or not `<out>/<name>` is a directory. */
  lemma CopyIntoDir(fs: FileSystem, src: string, out: string, name: string)
    requires out != "" && !EndsWith(out, "/") && !StartsWith(name, "/")
    ensures var t := CopyTarget(fs, src, Join(out, name));
      t != out && Under(t, out)
  {
    var dst := Join(out, name);
    assert dst == out + "/" + name;
    assert StartsWith(dst, out + "/") by {
      assert dst[..|out + "/"|] == out + "/";
    }
    if IsDir(fs, dst) {
      var t := Join(dst, Basename(src));
      assert !StartsWith(Basename(src), "/") by {
        if Basename(src) != [] {
          assert Basename(src)[0] in Basename(src);
        }
      }
      JoinExtends(dst, Basename(src));
      StartsWithTransitive(t, dst, out + "/");
    }
  }

  /** A copy from outside `out` into it changes nothing outside `out`. */
  lemma CopyKeepsOutside(fs: FileSystem, fs0: FileSystem, src: string, out: string, name: string)
    requires out != "" && !EndsWith(out, "/") && !StartsWith(name, "/")
    requires src != out && !Under(src, out)
    requires SameOutside(fs, fs0, out) && IsDir(fs, out)
    ensures var r := Copy(fs, src, Join(out, name));
      (r.Ok? <==> IsFile(fs0, src)) &&
      (r.Ok? ==> SameOutside(r.value, fs0, out) && IsDir(r.value, out))
  {
    CopyIntoDir(fs, src, out, name);
    assert IsFile(fs, src) <==> IsFile(fs0, src);
  }
  /** The inputs that are regular files, in order. */
  function ExistingFiles(fs: FileSystem, s: seq<string>): (r: seq<string>)
    ensures forall p :: p in r <==> p in s && IsFile(fs, p)
  {
    if s == [] then []
    else
      var init := ExistingFiles(fs, s[..|s| - 1]);
      assert s == s[..|s| - 1] + [s[|s| - 1]];
      if IsFile(fs, s[|s| - 1]) then init + [s[|s| - 1]] else init
  }
}
