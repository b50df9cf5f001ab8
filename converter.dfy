/** The conversion phase: writes each image in the configured output format
    into an output directory, keeping the file's stem. What the image
    library writes for an opened image is the injected `encode`; `None`
    stands for a save that raises. */
module Converter {
  import opened Common
  import opened Text
  import opened Paths
  import opened Files

  /** The configuration keys the converter reads. */
  datatype ConverterConfig = ConverterConfig(
    outputFormat: Option<string>,
    quality: Option<int>,
    preserveMetadata: Option<bool>,
    resizeIfLarger: Option<bool>,
    maxDimensions: Option<(int, int)>)

  /** `max(1, min(100, quality))`. */
  function Clamp(q: int): (r: int)
    ensures 1 <= r <= 100
    ensures 1 <= q <= 100 ==> r == q
    ensures q < 1 ==> r == 1
    ensures q > 100 ==> r == 100
  {
    if q < 1 then 1 else if q > 100 then 100 else q
  }

  /** The file name kept from the input: `Path(basename(p)).stem`. */
  function InputStem(p: string): (r: string)
    ensures '/' !in r
  {
    var name := Name(Basename(p));
    var r := Stem(name);
    assert r + Suffix(name) == name;
    assert forall i :: 0 <= i < |r| ==> r[i] == name[i];
    r
  }

  /** `<out>/<stem>.<format>`, where `convert_image` writes. */
  function OutputPath(p: string, out: string, fmt: string): string
  {
    Join(out, InputStem(p) + "." + fmt)
  }

  lemma NameNoSlash(stem: string, fmt: string)
    requires '/' !in stem && '/' !in fmt
    ensures '/' !in stem + "." + fmt
  {
    assert '/' !in stem + ".";
  }

  /** The converted file keeps the input's stem, so the batch id and
      sequence number a renamed file carries survive, and its suffix is
      the output format. */
  lemma OutputPathKeepsStem(p: string, out: string, fmt: string)
    requires fmt != "" && '.' !in fmt && '/' !in fmt && InputStem(p) != ""
    ensures var name := Basename(OutputPath(p, out, fmt));
      Stem(name) == InputStem(p) && Suffix(name) == "." + fmt
  {
    var stem := InputStem(p);
    var name := stem + "." + fmt;
    NameNoSlash(stem, fmt);
    BasenameOfJoin(out, name);
    StemOfDotted(stem, fmt);
  }

  /** `image_utils.convert_image(src, dst, ...)`: a file the image library
      cannot open, a failing `makedirs` of the destination's directory, a
      failing save or a directory in the destination's place gives `None`.
      The first component is the filesystem afterwards. */
  function SaveImage(fs: FileSystem, src: string, dst: string, encode: Content -> Option<Content>)
    : (r: (FileSystem, Option<string>))
    ensures r.1.Some? ==> r.1.value == dst && IsValidImage(fs, src)
  {
    if !IsValidImage(fs, src) then (fs, None)
    else
      match MakeDirs(fs, Dirname(dst))
      case Err(_) => (fs, None)
      case Ok(fs1) =>
        match encode(fs[src].content)
        case None => (fs1, None)
        case Some(c) => if IsDir(fs1, dst) then (fs1, None) else (fs1[dst := File(c)], Some(dst))
  }

  /** `Converter.convert_image(image_path, output_dir)`: all exceptions
      are caught and give `None`. */
  function ConvertOne(fs: FileSystem, p: string, out: string, fmt: string, encode: Content -> Option<Content>)
    : (r: (FileSystem, Option<string>))
    ensures r.1.Some? ==> r.1.value == OutputPath(p, out, fmt)
  {
    match MakeDirs(fs, out)
    case Err(_) => (fs, None)
    case Ok(fs1) => SaveImage(fs1, p, OutputPath(p, out, fmt), encode)
  }

  /** The loop state of `process`: the filesystem and `results`. */
  datatype Conversion = Conversion(fs: FileSystem, results: Dict<Option<string>>)

  /** The loop of `process` over the remaining inputs. */
  function ConvertSteps(st: Conversion, files: seq<string>, out: string, fmt: string,
                        encode: Content -> Option<Content>): Conversion
    decreases |files|
  {
    if files == [] then st
    else
      var step := ConvertOne(st.fs, files[0], out, fmt, encode);
      ConvertSteps(Conversion(step.0, Put(st.results, files[0], step.1)), files[1..], out, fmt, encode)
  }

  /** `process(file_paths, output_dir)`: only the first `makedirs` raises;
      a dictionary input is given as its keys. */
  function ConvertAll(fs: FileSystem, paths: seq<string>, out: string, fmt: string,
                      encode: Content -> Option<Content>): Result<Conversion>
  {
    match MakeDirs(fs, out)
    case Err(e) => Err(e)
    case Ok(fs1) => Ok(ConvertSteps(Conversion(fs1, EmptyDict()), paths, out, fmt, encode))
  }

  class Converter {
    var outputFormat: string
    var quality: int
    var preserveMetadata: bool
    var resizeIfLarger: bool
    var maxDimensions: (int, int)

    /** `Converter(config)`: webp at quality 90, metadata kept, no
        resizing, at most 3840 by 2160. */
    constructor(config: ConverterConfig)
      ensures outputFormat == (if config.outputFormat.Some? then config.outputFormat.value else "webp")
      ensures quality == (if config.quality.Some? then config.quality.value else 90)
      ensures preserveMetadata == (config.preserveMetadata.None? || config.preserveMetadata.value)
      ensures resizeIfLarger == (config.resizeIfLarger.Some? && config.resizeIfLarger.value)
      ensures maxDimensions == (if config.maxDimensions.Some? then config.maxDimensions.value else (3840, 2160))
    {
      outputFormat := if config.outputFormat.Some? then config.outputFormat.value else "webp";
      quality := if config.quality.Some? then config.quality.value else 90;
      preserveMetadata := config.preserveMetadata.None? || config.preserveMetadata.value;
      resizeIfLarger := config.resizeIfLarger.Some? && config.resizeIfLarger.value;
      maxDimensions := if config.maxDimensions.Some? then config.maxDimensions.value else (3840, 2160);
    }

    /** `process(file_paths, output_dir)` with the current format. */
    method Process(fs: FileSystem, paths: seq<string>, out: string, encode: Content -> Option<Content>)
      returns (r: Result<Conversion>)
      ensures r == ConvertAll(fs, paths, out, outputFormat, encode)
    {
      var made := MakeDirs(fs, out);
      if made.Err? {
        return Err(made.error);
      }
      var st := Conversion(made.value, EmptyDict());
      var count := 0;
      while count < |paths|
        invariant 0 <= count <= |paths|
        invariant ConvertSteps(st, paths[count..], out, outputFormat, encode) ==
          ConvertAll(fs, paths, out, outputFormat, encode).value
      {
        assert paths[count..][1..] == paths[count + 1..];
        var step := ConvertOne(st.fs, paths[count], out, outputFormat, encode);
        st := Conversion(step.0, Put(st.results, paths[count], step.1));
        count := count + 1;
      }
      r := Ok(st);
    }

    /** `set_format(format_name)`: the name is stored lowercased. */
    method SetFormat(formatName: string)
      modifies this
      ensures outputFormat == Lower(formatName)
      ensures quality == old(quality) && preserveMetadata == old(preserveMetadata)
      ensures resizeIfLarger == old(resizeIfLarger) && maxDimensions == old(maxDimensions)
    {
      outputFormat := Lower(formatName);
    }

    /** `set_quality(quality)`: the value is clamped to 1..100. */
    method SetQuality(q: int)
      modifies this
      ensures quality == Clamp(q)
      ensures outputFormat == old(outputFormat) && preserveMetadata == old(preserveMetadata)
      ensures resizeIfLarger == old(resizeIfLarger) && maxDimensions == old(maxDimensions)
    {
      quality := Clamp(q);
    }
  }

  // ---------------------------------------------------------------- properties

  /** The results dictionary gets one key per input, keeps earlier keys,
      and every successful conversion names its output path. */
  lemma {:induction false} ConvertStepsResults(st: Conversion, files: seq<string>, out: string, fmt: string,
                                               encode: Content -> Option<Content>)
    requires DictValid(st.results)
    requires forall k :: k in st.results.values && st.results.values[k].Some? ==>
      st.results.values[k].value == OutputPath(k, out, fmt)
    ensures var r := ConvertSteps(st, files, out, fmt, encode).results;
      DictValid(r) &&
      (forall k :: k in r.values <==> k in st.results.values || k in files) &&
      (forall k :: k in r.values && r.values[k].Some? ==> r.values[k].value == OutputPath(k, out, fmt)) &&
      |r.keys| <= |st.results.keys| + |files| &&
      (Distinct(files) && (forall k :: k in files ==> k !in st.results.values) ==>
        |r.keys| == |st.results.keys| + |files|)
    decreases |files|
  {
    if files != [] {
      var step := ConvertOne(st.fs, files[0], out, fmt, encode);
      var next := Conversion(step.0, Put(st.results, files[0], step.1));
      ConvertStepsResults(next, files[1..], out, fmt, encode);
      forall k | k in files[1..] ensures k in files {
      }
      if Distinct(files) && (forall k :: k in files ==> k !in st.results.values) {
        assert files[0] !in st.results.values;
        assert Distinct(files[1..]) by {
          forall i, j | 0 <= i < j < |files[1..]| ensures files[1..][i] != files[1..][j] {
            assert files[1..][i] == files[i + 1] && files[1..][j] == files[j + 1];
          }
        }
        forall k | k in files[1..] ensures k !in next.results.values {
          var i :| 0 <= i < |files[1..]| && files[1..][i] == k;
          assert files[i + 1] == k && files[0] != files[i + 1];
        }
      }
    }
  }

  /** `process` gives one entry per distinct input path, in first-seen
      order; a failed conversion gives `None` rather than raising, and a
      successful one names `<out>/<stem>.<format>`. */
  lemma ConvertAllResults(fs: FileSystem, paths: seq<string>, out: string, fmt: string,
                          encode: Content -> Option<Content>)
    ensures var r := ConvertAll(fs, paths, out, fmt, encode);
      (r.Ok? <==> out != "" && (out in fs ==> fs[out].Dir?)) &&
      (r.Ok? ==>
        DictValid(r.value.results) &&
        (forall k :: k in r.value.results.values <==> k in paths) &&
        (forall k :: k in r.value.results.values && r.value.results.values[k].Some? ==>
          r.value.results.values[k].value == OutputPath(k, out, fmt)) &&
        |r.value.results.keys| <= |paths| &&
        (Distinct(paths) ==> |r.value.results.keys| == |paths|))
  {
    if MakeDirs(fs, out).Ok? {
      ConvertStepsResults(Conversion(MakeDirs(fs, out).value, EmptyDict()), paths, out, fmt, encode);
    }
  }

  /** What the filesystem keeps through the loop: the output directory
      exists, holds no directory, and everything outside it is as in `fs0`. */
  ghost predicate Clean(fs: FileSystem, fs0: FileSystem, out: string)
  {
    IsDir(fs, out) && SameOutside(fs, fs0, out) && forall q :: q in fs && Under(q, out) ==> fs[q].File?
  }

  lemma WriteInside(fs: FileSystem, fs0: FileSystem, out: string, dst: string, e: Entry)
    requires Clean(fs, fs0, out) && dst != out && Under(dst, out) && e.File?
    ensures Clean(fs[dst := e], fs0, out)
  {
  }

  /** One conversion of an input outside the output directory succeeds
      exactly when the input opens as an image and the library saves it. */
  lemma ConvertOneOutcome(fs: FileSystem, fs0: FileSystem, p: string, out: string, fmt: string,
                          encode: Content -> Option<Content>)
    requires out != "" && !EndsWith(out, "/") && '/' !in fmt && p != out && !Under(p, out)
    requires Clean(fs, fs0, out)
    ensures var r := ConvertOne(fs, p, out, fmt, encode);
      Clean(r.0, fs0, out) &&
      (r.1.Some? <==> IsValidImage(fs0, p) && encode(fs0[p].content).Some?)
  {
    var dst := OutputPath(p, out, fmt);
    OutputPathInside(p, out, fmt);
    assert MakeDirs(fs, out) == Ok(fs);
    assert MakeDirs(fs, Dirname(dst)) == Ok(fs);
    assert !IsDir(fs, dst);
    assert IsValidImage(fs, p) <==> IsValidImage(fs0, p);
    if IsValidImage(fs, p) && encode(fs[p].content).Some? {
      WriteInside(fs, fs0, out, dst, File(encode(fs[p].content).value));
    }
  }

  /** The output path is a file name directly inside the output directory. */
  lemma OutputPathInside(p: string, out: string, fmt: string)
    requires out != "" && !EndsWith(out, "/") && '/' !in fmt
    ensures var dst := OutputPath(p, out, fmt);
      Dirname(dst) == out && Under(dst, out) && dst != out
  {
    var name := InputStem(p) + "." + fmt;
    NameNoSlash(InputStem(p), fmt);
    var dst := OutputPath(p, out, fmt);
    DirnameOfJoin(out, name);
    assert !StartsWith(name, "/") by {
      assert name[0] in name;
    }
    assert dst == out + "/" + name;
    assert dst[..|out + "/"|] == out + "/";
  }

  /** The loop on inputs outside the output directory: an input's entry is
      `None` exactly when it does not open as an image or the library's save
      fails, decided on the starting filesystem. */
  lemma {:induction false} ConvertStepsOutcome(st: Conversion, files: seq<string>, out: string, fmt: string,
                                               encode: Content -> Option<Content>, fs0: FileSystem)
    requires out != "" && !EndsWith(out, "/") && '/' !in fmt
    requires forall p :: p in files ==> p != out && !Under(p, out)
    requires Clean(st.fs, fs0, out)
    requires forall k :: k in st.results.values ==>
      (st.results.values[k].Some? <==> IsValidImage(fs0, k) && encode(fs0[k].content).Some?)
    ensures var r := ConvertSteps(st, files, out, fmt, encode).results;
      forall k :: k in r.values ==> (r.values[k].Some? <==> IsValidImage(fs0, k) && encode(fs0[k].content).Some?)
    decreases |files|
  {
    if files != [] {
      assert files[0] in files;
      ConvertOneOutcome(st.fs, fs0, files[0], out, fmt, encode);
      var step := ConvertOne(st.fs, files[0], out, fmt, encode);
      forall q | q in files[1..] ensures q in files {
      }
      ConvertStepsOutcome(Conversion(step.0, Put(st.results, files[0], step.1)), files[1..], out, fmt, encode, fs0);
    }
  }

  /** On an output directory apart from the inputs and holding no
      directory, `process` maps each input to `None` exactly when the
      input does not open as an image or saving it fails. */
  lemma ConvertAllOutcome(fs: FileSystem, paths: seq<string>, out: string, fmt: string,
                          encode: Content -> Option<Content>)
    requires out != "" && !EndsWith(out, "/") && '/' !in fmt
    requires forall p :: p in paths ==> p != out && !Under(p, out)
    requires out in fs ==> fs[out].Dir?
    requires forall q :: q in fs && Under(q, out) ==> fs[q].File?
    ensures var r := ConvertAll(fs, paths, out, fmt, encode);
      r.Ok? && forall k :: k in r.value.results.values ==>
        (r.value.results.values[k].Some? <==> IsValidImage(fs, k) && encode(fs[k].content).Some?)
  {
    var fs1 := MakeDirs(fs, out).value;
    assert Clean(fs1, fs, out);
    ConvertStepsOutcome(Conversion(fs1, EmptyDict()), paths, out, fmt, encode, fs);
  }
}
