/** Model of src/utils/string_utils.py: filename sanitising, extension
    extraction with `os.path.splitext`, the image-extension test and the
    shape of generated identifiers. */
module StringUtils {
  import opened Text
  import opened Paths

  /** The characters `sanitize_filename` replaces: \ / * ? : " < > | */
  const ForbiddenChars: set<char> := {'\\', '/', '*', '?', ':', '"', '<', '>', '|'}

  /** The extensions `is_image_file` accepts when none are given. */
  const DefaultImageExtensions: seq<string> := ["jpg", "jpeg", "png", "gif", "bmp", "webp", "tiff"]

  /** `sanitize_filename(name)`: each forbidden character becomes '_'. */
  function SanitizeFilename(name: string): (r: string)
    ensures |r| == |name|
    ensures forall i :: 0 <= i < |r| ==> r[i] !in ForbiddenChars
    ensures forall i :: 0 <= i < |r| && name[i] !in ForbiddenChars ==> r[i] == name[i]
    ensures forall i :: 0 <= i < |r| && name[i] in ForbiddenChars ==> r[i] == '_'
  {
    if name == [] then []
    else [if name[0] in ForbiddenChars then '_' else name[0]] + SanitizeFilename(name[1..])
  }

  /** Sanitising a sanitised name changes nothing. */
  lemma SanitizeIdempotent(name: string)
    ensures SanitizeFilename(SanitizeFilename(name)) == SanitizeFilename(name)
  {
    var once := SanitizeFilename(name);
    var twice := SanitizeFilename(once);
    assert forall i :: 0 <= i < |once| ==> twice[i] == once[i];
  }

  /** A name without forbidden characters is left as it is. */
  lemma SanitizeKeepsCleanNames(name: string)
    requires forall i :: 0 <= i < |name| ==> name[i] !in ForbiddenChars
    ensures SanitizeFilename(name) == name
  {
    var r := SanitizeFilename(name);
    assert forall i :: 0 <= i < |name| ==> r[i] == name[i];
  }

  /** `get_extension(filename)`: the `splitext` extension, lower-cased,
      without its dot. */
  function GetExtension(filename: string): (r: string)
    ensures '.' !in r && '/' !in r
    ensures Lower(r) == r
  {
    var ext := SplitExt(filename).1;
    if ext == "" then ""
    else
      LowerAvoids(ext[1..], '.');
      LowerAvoids(ext[1..], '/');
      LowerIdempotent(ext[1..]);
      Lower(ext[1..])
  }

  /** `splitext` of a plain file name `base.ext`, where `base` has a
      character other than a dot and `ext` has no dot or slash. */
  lemma SplitExtOfName(base: string, ext: string)
    requires '/' !in base && '.' !in ext && '/' !in ext
    requires exists k :: 0 <= k < |base| && base[k] != '.'
    ensures SplitExt(base + "." + ext) == (base, "." + ext)
  {
    var p := base + "." + ext;
    assert p[|base| + 1..] == ext;
    LastIndexOfIs(p, '.', |base|);
    assert '/' !in p;
    var k :| 0 <= k < |base| && base[k] != '.';
    assert p[k] == base[k];
    SplitExtAt(p, |base|, k);
    assert p[..|base|] == base;
    assert p[|base|..] == "." + ext;
  }

  lemma ExtensionOfName(base: string, ext: string)
    requires '/' !in base && '.' !in ext && '/' !in ext
    requires exists k :: 0 <= k < |base| && base[k] != '.'
    ensures GetExtension(base + "." + ext) == Lower(ext)
  {
    SplitExtOfName(base, ext);
    assert ("." + ext)[1..] == ext;
  }

  /** `is_image_file(filename, valid_extensions)`. */
  predicate IsImageFile(filename: string, validExtensions: seq<string>)
  {
    Lower(GetExtension(filename)) in validExtensions
  }

  /** `is_image_file(filename)` with the default extension list. */
  predicate IsDefaultImageFile(filename: string)
  {
    IsImageFile(filename, DefaultImageExtensions)
  }

  lemma DefaultImageFileIff(filename: string)
    ensures IsDefaultImageFile(filename) <==>
      GetExtension(filename) in {"jpg", "jpeg", "png", "gif", "bmp", "webp", "tiff"}
  {
  }

  /** `generate_unique_id(prefix, length)`; `draws` are the `length` digits
      `random.choices` picks (none for a negative length). */
  function GenerateUniqueId(prefix: string, length: int, draws: seq<nat>): (id: string)
    requires |draws| == (if length < 0 then 0 else length)
    requires forall i :: 0 <= i < |draws| ==> draws[i] < 10
    ensures StartsWith(id, prefix)
    ensures |id| == |prefix| + |draws|
    ensures AllDigits(id[|prefix|..])
    ensures forall i :: 0 <= i < |draws| ==> id[|prefix| + i] == DigitChar(draws[i])
  {
    prefix + DigitString(draws)
  }

  function DigitString(draws: seq<nat>): (s: string)
    requires forall i :: 0 <= i < |draws| ==> draws[i] < 10
    ensures |s| == |draws| && AllDigits(s)
    ensures forall i :: 0 <= i < |draws| ==> s[i] == DigitChar(draws[i])
  {
    if draws == [] then [] else [DigitChar(draws[0])] + DigitString(draws[1..])
  }
}
