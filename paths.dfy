/** POSIX path helpers with the meaning of Python's `os.path` (`join`,
    `basename`, `dirname`, `splitext`) and of `pathlib.PurePosixPath`
    (`name`, `stem`, `suffix`, `with_stem`, `str()`). */
module Paths {
  import opened Common
  import opened Text

  /** `os.path.join(a, b)`. */
  function Join(a: string, b: string): (r: string)
    ensures !StartsWith(b, "/") && a != "" && !EndsWith(a, "/") ==> r == a + "/" + b
  {
    if StartsWith(b, "/") then b
    else if a == "" || EndsWith(a, "/") then a + b
    else a + "/" + b
  }

  /** `os.path.basename(p)`: the text after the last slash. */
  function Basename(p: string): (r: string)
    ensures '/' !in r
    ensures EndsWith(p, r)
  {
    var i := LastIndexOf(p, '/');
    p[i + 1..]
  }

  /** Joining a relative name never shortens the directory. */
  lemma JoinExtends(a: string, b: string)
    requires !StartsWith(b, "/")
    ensures StartsWith(Join(a, b), a)
  {
    if a != "" && !EndsWith(a, "/") {
      assert (a + "/" + b)[..|a|] == a;
    } else {
      assert (a + b)[..|a|] == a;
    }
  }

  /** Two names joined onto one directory give the same path only if the
      names are equal, when both or neither are absolute. */
  lemma JoinInjective(d: string, a: string, b: string)
    requires StartsWith(a, "/") <==> StartsWith(b, "/")
    requires Join(d, a) == Join(d, b)
    ensures a == b
  {
    if !StartsWith(a, "/") {
      if d == "" || EndsWith(d, "/") {
        assert a == Join(d, a)[|d|..];
        assert b == Join(d, b)[|d|..];
      } else {
        assert a == Join(d, a)[|d| + 1..];
        assert b == Join(d, b)[|d| + 1..];
      }
    }
  }

  lemma BasenameOfJoin(dir: string, name: string)
    requires '/' !in name
    ensures Basename(Join(dir, name)) == name
  {
    var j := Join(dir, name);
    var i := LastIndexOf(j, '/');
    assert j[|j| - |name|..] == name;
    if !StartsWith(name, "/") && dir != "" && !EndsWith(dir, "/") {
      assert j[|j| - |name| - 1] == '/';
    } else if !StartsWith(name, "/") && dir != "" {
      assert j[|dir| - 1] == '/';
    }
  }

  predicate AllSlashes(s: string)
  {
    forall i :: 0 <= i < |s| ==> s[i] == '/'
  }

  function StripTrailingSlashes(s: string): (r: string)
    ensures |r| <= |s|
  {
    if s != [] && s[|s| - 1] == '/' then StripTrailingSlashes(s[..|s| - 1]) else s
  }

  /** `os.path.dirname(p)`. */
  function Dirname(p: string): string
  {
    var head := p[..LastIndexOf(p, '/') + 1];
    if head != "" && !AllSlashes(head) then StripTrailingSlashes(head) else head
  }

  /** The directory of `<dir>/<name>` is `dir` again. */
  lemma DirnameOfJoin(dir: string, name: string)
    requires dir != "" && !EndsWith(dir, "/") && '/' !in name
    ensures Dirname(Join(dir, name)) == dir
  {
    assert !StartsWith(name, "/") by {
      if name != [] {
        assert name[0] in name;
      }
    }
    var j := Join(dir, name);
    assert j == dir + "/" + name;
    assert j[|dir| + 1..] == name;
    LastIndexOfIs(j, '/', |dir|);
    var head := j[..|dir| + 1];
    assert head == dir + "/";
    assert dir[|dir| - 1..] == [dir[|dir| - 1]];
    assert head[|dir| - 1] != '/';
    assert !AllSlashes(head);
    assert head[..|head| - 1] == dir;
    assert StripTrailingSlashes(head) == StripTrailingSlashes(dir);
    assert StripTrailingSlashes(dir) == dir;
    assert Dirname(j) == StripTrailingSlashes(head);
  }

  lemma DirnameOfPlainName(p: string)
    requires '/' !in p
    ensures Dirname(p) == ""
  {
  }

  /** `os.path.splitext(p)`: the extension starts at the last dot of the
      final component, provided that component has a non-dot character
      before it; otherwise the extension is empty. */
  function SplitExt(p: string): (r: (string, string))
    ensures r.0 + r.1 == p
    ensures r.1 == "" || r.1[0] == '.'
    ensures r.1 != "" ==> '.' !in r.1[1..] && '/' !in r.1[1..]
  {
    var sep := LastIndexOf(p, '/');
    var dot := LastIndexOf(p, '.');
    if dot > sep && exists k :: sep + 1 <= k < dot && p[k] != '.' then
      ExtensionAfterLastDot(p, sep, dot);
      (p[..dot], p[dot..])
    else (p, "")
  }

  /** The text from the last dot after the last slash has no further dot
      or slash. */
  lemma ExtensionAfterLastDot(p: string, sep: int, dot: int)
    requires sep == LastIndexOf(p, '/') && dot == LastIndexOf(p, '.') && dot > sep
    ensures p == p[..dot] + p[dot..] && p[dot..][0] == '.'
    ensures '.' !in p[dot..][1..] && '/' !in p[dot..][1..]
  {
    assert p[dot..][1..] == p[dot + 1..];
    if sep == -1 {
      NotInSuffix(p, '/', dot + 1);
    } else {
      assert p[dot + 1..] == p[sep + 1..][dot - sep..];
      NotInSuffix(p[sep + 1..], '/', dot - sep);
    }
  }

  lemma NotInSuffix(s: string, c: char, i: int)
    requires 0 <= i <= |s| && c !in s
    ensures c !in s[i..]
  {
    forall k | 0 <= k < |s| - i ensures s[i..][k] != c {
      assert s[i..][k] == s[i + k];
    }
  }

  /** `splitext` cuts at the last dot when a non-dot character `p[k]`
      precedes it in a path without slashes. */
  lemma SplitExtAt(p: string, dot: int, k: int)
    requires '/' !in p
    requires 0 <= k < dot < |p| && LastIndexOf(p, '.') == dot && p[k] != '.'
    ensures SplitExt(p) == (p[..dot], p[dot..])
  {
    assert LastIndexOf(p, '/') == -1;
  }

  // ---------------------------------------------------------------- pathlib

  /** The components of a path as pathlib parses them: empty and "." parts
      are dropped. */
  function Parts(p: string): (parts: seq<string>)
    ensures forall i :: 0 <= i < |parts| ==> parts[i] != "" && parts[i] != "."
  {
    Keep(Split(p, '/'))
  }

  function Keep(xs: seq<string>): (r: seq<string>)
    ensures forall i :: 0 <= i < |r| ==> r[i] != "" && r[i] != "."
    ensures forall i :: 0 <= i < |r| ==> r[i] in xs
  {
    if xs == [] then []
    else if xs[0] == "" || xs[0] == "." then Keep(xs[1..])
    else [xs[0]] + Keep(xs[1..])
  }

  /** The root pathlib keeps: "//" for exactly two leading slashes, "/" for
      one or at least three, "" for a relative path. */
  function Root(p: string): string
  {
    if StartsWith(p, "//") && !StartsWith(p, "///") then "//"
    else if StartsWith(p, "/") then "/"
    else ""
  }

  function JoinParts(parts: seq<string>): string
  {
    if parts == [] then ""
    else if |parts| == 1 then parts[0]
    else JoinParts(parts[..|parts| - 1]) + "/" + parts[|parts| - 1]
  }

  /** `str(PurePosixPath(p))`. */
  function PathStr(p: string): string
  {
    var root := Root(p);
    var parts := Parts(p);
    if root == "" && parts == [] then "." else root + JoinParts(parts)
  }

  /** The joined parts end with the last part. */
  lemma JoinPartsEndsWith(parts: seq<string>)
    requires parts != []
    ensures EndsWith(JoinParts(parts), parts[|parts| - 1])
  {
    var j := JoinParts(parts);
    var last := parts[|parts| - 1];
    if |parts| > 1 {
      assert j == JoinParts(parts[..|parts| - 1]) + "/" + last;
      assert j[|j| - |last|..] == last;
    }
  }

  /** `PurePosixPath(p).name`. */
  function Name(p: string): (r: string)
    ensures '/' !in r
  {
    var parts := Parts(p);
    if parts == [] then ""
    else
      var last := parts[|parts| - 1];
      assert last in Split(p, '/');
      NoSlashInSplit(p, last);
      last
  }

  lemma {:induction false} NoSlashInSplit(s: string, part: string)
    requires part in Split(s, '/')
    ensures '/' !in part
    decreases |s|
  {
    var i := IndexOf(s, '/');
    if i < 0 {
      assert Split(s, '/') == [s];
    } else {
      assert Split(s, '/') == [s[..i]] + Split(s[i + 1..], '/');
      if part != s[..i] {
        assert part in Split(s[i + 1..], '/');
        NoSlashInSplit(s[i + 1..], part);
      }
    }
  }

  /** `PurePosixPath(name).suffix` for a final component. */
  function Suffix(name: string): (r: string)
    ensures r == "" || (r[0] == '.' && EndsWith(name, r))
  {
    var i := LastIndexOf(name, '.');
    if 0 < i < |name| - 1 then name[i..] else ""
  }

  /** `PurePosixPath(name).stem` for a final component. */
  function Stem(name: string): (r: string)
    ensures r + Suffix(name) == name
  {
    var i := LastIndexOf(name, '.');
    if 0 < i < |name| - 1 then
      assert name == name[..i] + name[i..];
      name[..i]
    else name
  }

  /** Appending `.<ext>` to a non-empty stem gives a name with that stem
      and suffix. */
  lemma StemOfDotted(stem: string, ext: string)
    requires stem != "" && ext != "" && '.' !in ext
    ensures Stem(stem + "." + ext) == stem && Suffix(stem + "." + ext) == "." + ext
  {
    var name := stem + "." + ext;
    assert name[|stem| + 1..] == ext;
    LastIndexOfIs(name, '.', |stem|);
    assert name[..|stem|] == stem;
    assert name[|stem|..] == "." + ext;
  }

  /** `str(PurePosixPath(p).with_stem(stem))`; pathlib raises ValueError
      when the path has an empty name or the new name is not a single
      component. */
  function WithStem(p: string, stem: string): (r: Result<string>)
    ensures r.Ok? ==> Name(p) != ""
  {
    var parts := Parts(p);
    var name := Name(p);
    var newName := stem + Suffix(name);
    if name == "" then Err(p + " has an empty name")
    else if newName == "" || newName == "." || '/' in newName then Err("Invalid name " + newName)
    else Ok(Root(p) + JoinParts(parts[..|parts| - 1] + [newName]))
  }

  /** `with_stem` keeps the suffix: the new path ends with the new name. */
  lemma WithStemEndsWith(p: string, stem: string)
    requires WithStem(p, stem).Ok?
    ensures EndsWith(WithStem(p, stem).value, stem + Suffix(Name(p)))
  {
    var parts := Parts(p);
    var newName := stem + Suffix(Name(p));
    var all := parts[..|parts| - 1] + [newName];
    RootJoinEndsWith(Root(p), all);
  }

  lemma RootJoinEndsWith(root: string, parts: seq<string>)
    requires parts != []
    ensures EndsWith(root + JoinParts(parts), parts[|parts| - 1])
  {
    JoinPartsEndsWith(parts);
    PrependEndsWith(root, JoinParts(parts), parts[|parts| - 1]);
  }

  lemma PrependEndsWith(a: string, s: string, t: string)
    requires EndsWith(s, t)
    ensures EndsWith(a + s, t)
  {
    var r := a + s;
    assert r[|r| - |t|..] == s[|s| - |t|..];
  }
}
