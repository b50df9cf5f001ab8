# A verified model of an image batch-processing pipeline

This project models the deterministic layer of an image batch-processing
pipeline in Dafny.

A batch runs in this order:

1. extraction of a source (an archive, a directory, a single image or a
   dataset name) into a scratch directory;
2. for each memory-sized sub-batch, renaming to `<prefix>NNNNNN<suffix>`,
   filtering by resolution, and conversion to the output format;
3. packaging of the converted files into a zip archive;
4. a JSON report.

Each phase is bracketed by checkpoint records. Unless
`delete_after_packaging` is false, the scratch directories are removed on
every path out of the run.

Around the orchestrator sit:

- the checkpoint store;
- the memory-adaptive sub-batch generator;
- the sequential path of the parallel helper;
- a progress bar;
- CSV and JSON reports;
- two tables of batch and image records.

## How the world is represented

- **The filesystem** is a `map` from path to entry. An entry is a
  directory or a file, and a file's content is an image of known
  dimensions and format, an archive with its members, or other bytes.
  Every phase takes the filesystem and returns the new one.
- **The clock, random draws, memory readings and the listing order of a
  directory** are parameters.
- **The phases** enter the orchestrator as function values (`Phases`).
  The orchestrator's proofs therefore hold for any phase behaviour; each
  phase is modelled on its own in its own module.
- **Objects whose fields the source updates** are classes with those
  fields and `modifies` clauses: `CheckpointManager`, `ProgressManager`,
  `DatabaseManager`, `ParallelProcessor`, `Converter` and `BatchProcessor`.
- **Loops** are methods with invariants. Each method is tied to a function
  that states what the loop computes, and the lemmas are proved about
  that function.

## Modules

| module | file | models |
|---|---|---|
| `Common` | common.dfy | Option/Result, JSON-like values, insertion-ordered dictionaries |
| `Text` | text.dfy | string search, splitting, lower-casing, decimal rendering and parsing, `sorted` on strings |
| `Paths` | paths.dfy | `os.path.join`/`basename`/`dirname`/`splitext`, `pathlib` name, stem and suffix |
| `Files` | files.dfy | `shutil.copy2`, `os.makedirs`, `shutil.rmtree`, `os.remove` on the filesystem map |
| `StringUtils` | string_utils.dfy | src/utils/string_utils.py |
| `Memory` | memory.dfy | src/utils/memory_utils.py |
| `Parallel` | parallel.dfy | src/utils/parallel_utils.py |
| `Progress` | progress.dfy | src/utils/progress_utils.py |
| `Reports` | reports.dfy | src/utils/report_utils.py |
| `Database` | database.dfy | src/utils/database_utils.py |
| `Checkpoints` | checkpoints.dfy | src/utils/checkpoint_utils.py |
| `Renamer`, `Filter`, `Converter`, `Packager`, `Analyzer`, `Extractor` | renamer.dfy … extractor.dfy | src/phases/*.py |
| `BatchProcessing` | batch_processor.dfy | `BatchProcessor`: `process`, the setters, `_initialize_results` |
| `BatchComparison` | batch_compare.dfy | `BatchProcessor.compare_batches` |

## Model

| member | source | states |
|---|---|---|
| StringUtils.SanitizeFilename | src/utils/string_utils.py:21-32 | the result has the input's length, contains none of `\ / * ? : " < > \|`, keeps every other character and puts `_` where a forbidden one stood |
| StringUtils.SanitizeIdempotent | src/utils/string_utils.py:31 | sanitising twice gives the same as sanitising once |
| StringUtils.SanitizeKeepsCleanNames | src/utils/string_utils.py:31 | a name with no forbidden character comes back unchanged |
| StringUtils.GetExtension | src/utils/string_utils.py:34-44 | the extension has no dot and no slash and is already lower case |
| StringUtils.SplitExtOfName | src/utils/string_utils.py:43 | `splitext` of `base.ext`, for a base holding a non-dot character, is `(base, ".ext")` |
| StringUtils.ExtensionOfName | src/utils/string_utils.py:43-44 | the extension of `base.ext` is `ext` lower-cased, without the dot |
| StringUtils.DefaultImageFileIff | src/utils/string_utils.py:46-60 | with no list given, a file is an image exactly when its extension is one of jpg, jpeg, png, gif, bmp, webp, tiff |
| StringUtils.GenerateUniqueId | src/utils/string_utils.py:8-19 | the id is the prefix followed by exactly `length` decimal digits, the drawn ones in order |
| Renamer.PrefixFromConfig | src/phases/renamer.py:10-12 | without a configured `batch_prefix` the prefix is `bid` |
| Renamer.NewNameShape | src/phases/renamer.py:29-34 | the new name starts with the prefix, ends with the original suffix, and between them is a run of at least six digits whose value is the sequence number |
| Renamer.NewNamesDistinct | src/phases/renamer.py:34 | two names with one prefix are equal only if their sequence numbers are |
| Renamer.NewNameSlash | src/phases/renamer.py:34 | a new name starts with a slash exactly when the prefix does |
| Renamer.RenameFile | src/phases/renamer.py:14-43 | the call fails exactly when the output directory cannot be made; a returned path is `join(output_dir, prefix + %06d + suffix)`, with no part taken from the batch id |
| Renamer.NormaliseBatchId | src/phases/renamer.py:56-70 | the id always starts with the prefix; None becomes the prefix; an id with the prefix is kept; any other id becomes the prefix plus digits, taken from the id when it holds a digit run and otherwise equal in value to the current second modulo 10^6 |
| Renamer.Process | src/phases/renamer.py:45-95 | the loop over the sorted inputs yields the normalised id and the result of `RenameAll`, the reference definition of the renaming |
| Renamer.OneStep | src/phases/renamer.py:37-43 | for an input outside the output directory, a copy succeeds exactly when the input is a regular file, and nothing outside the output directory changes |
| Renamer.StepsFacts | src/phases/renamer.py:83-88 | the loop succeeds; the dictionary's keys are the existing inputs in sorted order, and the i-th sorted input maps to its name numbered i+1 |
| Renamer.RenameAllFacts | src/phases/renamer.py:72-95 | with the output directory apart from distinct inputs, renaming succeeds; the result holds exactly the inputs that are regular files, keyed in sorted order, and the i-th sorted input maps to `<out>/<prefix><i+1, six digits><suffix>` |
| Renamer.NumberedPathsDistinct | src/phases/renamer.py:29-34 | names numbered differently, under one prefix and one output directory, give different paths |
| Renamer.RenamedPathsDistinct | src/phases/renamer.py:83-85 | the new paths made by one call are pairwise distinct |
| Filter.Accepted | src/phases/filter.py:14-32 | the accepted inputs are no more than the inputs, and a path is among them exactly when it is an input that opens as an image with width and height both at least the minimum |
| Filter.Outputs | src/phases/filter.py:60-61 | one output path per input, in order, each `join(output_dir, basename(p))` |
| Filter.Process | src/phases/filter.py:34-68 | the loop yields `FilterAll`, the reference definition of the phase, including its error when a copy or the directory creation raises |
| Filter.FilterStepsCounts | src/phases/filter.py:58-65 | each input is either passed on or counted as rejected |
| Filter.FilterAllCounts | src/phases/filter.py:47-68 | on success, passed-on paths plus the rejected count equal the number of inputs |
| Filter.AcceptStep | src/phases/filter.py:60-62 | copying an accepted input outside the output directory succeeds and changes nothing outside that directory |
| Filter.StepFacts | src/phases/filter.py:57-65 | one turn of the loop decides the input as the starting filesystem would, and either appends its output path or adds one rejection |
| Filter.FilterStepsFacts | src/phases/filter.py:52-65 | the loop succeeds and passes on the output paths of exactly the accepted inputs, in input order; the rejected count is the rest |
| Filter.FilterAllFacts | src/phases/filter.py:34-68 | with the output directory apart from the inputs, `process` succeeds, returns `<out>/<basename(p)>` for each input meeting the criteria, in input order, rejects the rest and changes nothing outside the output directory |
| Filter.AcceptedMonotone | src/phases/filter.py:29 | a higher minimum resolution accepts a subset of what a lower one accepts, and no more inputs |
| Filter.AcceptStepClean | src/phases/filter.py:60-63 | copying an accepted input into a directory holding only accepted images keeps it so, and the copy exists at `<out>/<basename(p)>` |
| Filter.FilterStepsRefilter | src/phases/filter.py:52-65 | every path the loop passes on names a copy that meets the criteria again |
| Filter.FilterAllRefilter | src/phases/filter.py:29-63 | filtering into a fresh directory: every returned path names an image that `meets_criteria` accepts too |
| Converter.Clamp | src/phases/converter.py:117 | the quality lies in 1..100, is unchanged inside that range, and is 1 below it and 100 above it |
| Converter.InputStem | src/phases/converter.py:37-38 | the stem kept from the input holds no slash |
| Converter.OutputPathKeepsStem | src/phases/converter.py:35-39 | the output file's stem is the input's stem, so a renamed file's batch id and number survive, and its suffix is `.` plus the format |
| Converter.OutputPathInside | src/phases/converter.py:37-39 | the output path is a file directly inside the output directory: its dirname is that directory |
| Converter.SaveImage | src/phases/converter.py:42-50 | the image library call returns a path only for an input that opens as an image, and that path is the requested destination |
| Converter.ConvertOne | src/phases/converter.py:21-55 | a converted path is always `<out>/<stem>.<format>`; every failure gives None instead of raising |
| Converter.Converter.constructor | src/phases/converter.py:13-19 | the defaults are webp, quality 90, metadata kept, no resizing and at most 3840 by 2160 |
| Converter.Converter.Process | src/phases/converter.py:57-94 | the loop yields `ConvertAll` with the current format, the reference definition of the phase |
| Converter.Converter.SetFormat | src/phases/converter.py:96-106 | the format becomes the lower-cased name; no other field changes |
| Converter.Converter.SetQuality | src/phases/converter.py:108-118 | the quality becomes the clamped value; no other field changes |
| Converter.ConvertStepsResults | src/phases/converter.py:82-85 | the loop adds one key per input and keeps earlier keys; every successful entry names its `<out>/<stem>.<format>` path; distinct new inputs add exactly that many keys |
| Converter.ConvertAllResults | src/phases/converter.py:67-94 | `process` fails only when the output directory cannot be made; otherwise it has exactly one entry per distinct input, at most one per input and exactly one per input when they are distinct, and each success names its output path |
| Converter.ConvertOneOutcome | src/phases/converter.py:31-55 | for an input outside the output directory, conversion succeeds exactly when the input opens as an image and the library saves it |
| Converter.ConvertStepsOutcome | src/phases/converter.py:82-84 | each entry of the loop's dictionary is None exactly when its input does not open as an image or saving it fails, judged on the starting filesystem |
| Converter.ConvertAllOutcome | src/phases/converter.py:53-84 | on an output directory apart from the inputs, `process` succeeds and maps each input to None exactly when it does not open as an image or saving it fails |
| Packager.StampedContains | src/phases/packager.py:34-38 | after stamping, the path contains the timestamp text |
| Packager.PackagePathShape | src/phases/packager.py:31-42 | the archive path contains the timestamp and ends with `.zip` in some letter case |
| Packager.PackagePathIdempotent | src/phases/packager.py:34-42 | rewriting an already rewritten path changes nothing |
| Packager.EntriesOfFiles | src/phases/packager.py:58-64 | for files that all exist, there is one zip entry per file, in order, under its base name and holding its content |
| Packager.MetadataRecords | src/phases/packager.py:66-73 | the metadata text records the number of packaged files and the compression level |
| Packager.CollectValid | src/phases/packager.py:44-51 | the first loop keeps exactly the inputs that are regular files, in order |
| Packager.WriteEntries | src/phases/packager.py:58-64 | the second loop writes the entries of the reference definition `Entries` |
| Packager.CreatePackageLoop | src/phases/packager.py:17-80 | the method yields `CreatePackage`, the reference definition: None when the directory or name step fails or a directory is in the archive's place, and None with the incomplete archive left behind when zlib refuses the level and something is written |
| Packager.CreatePackageSucceeds | src/phases/packager.py:27-80 | a package is made exactly when the directory and name steps succeed, no directory is in the archive's place, and the level is within -1..9 or nothing is written (no input is a file and metadata is off); with a refused level the incomplete archive stays at the path |
| Packager.MembersFacts | src/phases/packager.py:44-73 | the archive holds one entry per existing input, under its base name and in input order, then `metadata.txt` exactly when metadata is included |
| Packager.CreatePackageArchive | src/phases/packager.py:55-76 | a successful package is a zip archive at the rewritten path, built from the inputs as they were before the call |
| Packager.CreatePackageFrame | src/phases/packager.py:27-80 | whether the package is made or not, nothing changes except the archive path and its parent directory |
| Packager.Cleanup | src/phases/packager.py:82-106 | the deletion loop yields `CleanupFiles`; nothing is deleted unless deletion after packaging is set |
| Packager.CleanupPrefixFacts | src/phases/packager.py:94-99 | cleanup deletes each input that was a regular file exactly once, lists exactly those, and changes nothing else |
| Packager.ProcessFacts | src/phases/packager.py:108-152 | `file_count` is the number of inputs on every path; a failed package deletes nothing and reports "Failed to create package"; a successful one deletes, when configured, exactly the inputs that were regular files, after the archive is written |
| Packager.AfterPackageFacts | src/phases/packager.py:127-152 | what follows the archive: failure leaves the files alone, and success deletes exactly the existing inputs when configured |
| Analyzer.AspectType | src/phases/analyzer.py:40-49 | from the ratio rounded to three decimals, ties to even: a class exists exactly when the height is positive and 2000·width > height; "square" exactly for 1799·h ≤ 2000·w ≤ 2201·h, "landscape" above, "portrait" between |
| Analyzer.RoundDivAtLeast | src/phases/analyzer.py:44-49 | `round(n / d)` reaches `m` exactly when `n / d` is above `m - 1/2`, or equal to it with `m` even |
| Analyzer.FlagIsFilterCriterion | src/phases/analyzer.py:23-38 | an image is flagged as meeting the minimum resolution exactly when the filter phase would keep it, and the "File not found" entry is given exactly for a missing path |
| Analyzer.Process | src/phases/analyzer.py:62-101 | the loop yields `AnalyzeSteps` from the empty dictionary, the reference definition of the phase |
| Analyzer.AnalyzeStepsFacts | src/phases/analyzer.py:85-86 | every input becomes a key holding its own analysis, earlier keys stay, and distinct new inputs add exactly that many keys |
| Analyzer.FreshTail | src/phases/analyzer.py:85-86 | after the first of several distinct new inputs is added, the others are still new |
| Analyzer.ProcessFacts | src/phases/analyzer.py:71-101 | `process` has exactly one entry per distinct input, holding that input's analysis, and one per input when the inputs are distinct |
| Analyzer.CountTotalOther | src/phases/analyzer.py:140 | changing a count outside the listed keys leaves their total unchanged |
| Analyzer.CountTotalUpdate | src/phases/analyzer.py:140 | changing one listed key's count changes the total by exactly the difference |
| Analyzer.BumpTotal | src/phases/analyzer.py:140-144 | incrementing a count with `get(k, 0) + 1` adds exactly one to the sum of the counts |
| Analyzer.TallyFacts | src/phases/analyzer.py:123-144 | the walk counts every error entry as failed, counts at most one resolution hit per description, and adds exactly one format count and one aspect count per description |
| Analyzer.CountsCover | src/phases/analyzer.py:123-127 | every key holds either an error or a description |
| Analyzer.RoundDiv | src/phases/analyzer.py:148-149 | the rounded quotient lies within half a unit of the exact one, and an exact half goes to the even neighbour |
| Analyzer.CalculateStatistics | src/phases/analyzer.py:103-153 | the loop's statistics are the walk `TallySteps` over the items in key order; `total` is the number of entries and the averages are 0 without a valid entry |
| Analyzer.StatisticsFacts | src/phases/analyzer.py:112-151 | `failed` is the number of error entries and at most `total`, `meet_resolution` is at most `total - failed`, the format counts and the aspect counts each add up to `total - failed` |
| Extractor.SettingsOf | src/phases/extractor.py:18-28 | defaults: the seven image extensions, no nested extraction, no sample mode, sample size 100, random sampling |
| Extractor.ArchiveKindIgnoresCase | src/phases/extractor.py:46-52 | the archive kind depends only on the lower-cased suffix; exactly the paths ending in `.zip`, `.tar`, `.tar.gz` or `.tgz` in any letter case are accepted, and any other raises "Unsupported archive format" |
| Extractor.Chosen | src/phases/extractor.py:85-94 | the chosen members are no more than the archive's members |
| Extractor.ChosenIff | src/phases/extractor.py:85-94 | a member is written out exactly when it is in the archive and selected: for a zip, its name does not end in `/` and nested extraction is on or it has an image extension |
| Extractor.Destinations | src/phases/extractor.py:93-94 | the i-th listed path is `join(output_dir, name)` for the i-th chosen member, the name as stored |
| Extractor.SafeParts | src/phases/extractor.py:92 | the components `ZipFile.extract` keeps: none is empty, "." or "..", and each comes from the name |
| Extractor.ZipTargetInside | src/phases/extractor.py:92 | a zip member is written inside the output directory (or at it) whatever its name |
| Extractor.EscapingZipMember | src/phases/extractor.py:92-93 | a member named `/x` or `../x` is written at `<out>/x`, while the listed path is `/x` or `<out>/../x`, outside the output directory |
| Extractor.Targets | src/phases/extractor.py:92 | the i-th write target is where `extract` puts the i-th chosen member: the sanitised name for a zip, the plain join for a tar |
| Extractor.TargetsAreDestinations | src/phases/extractor.py:92-93 | for a tar, and for zip members whose names do not escape, the write targets are the listed paths |
| Extractor.ExtractMembers | src/phases/extractor.py:67-106 | the member loop yields `ExtractArchive`, the reference definition over the chosen members, including its errors for a missing or corrupt archive and for a member whose target is a directory |
| Extractor.WriteMembersOk | src/phases/extractor.py:92 | writing fails exactly when some member's write target is a directory |
| Extractor.WriteMembersPaths | src/phases/extractor.py:93-94 | a successful write lists the plain joins of the member names in order after the paths so far |
| Extractor.WriteMembersFiles | src/phases/extractor.py:92 | a successful write leaves a regular file at each write target |
| Extractor.WriteMembersResult | src/phases/extractor.py:85-94 | both of the above together |
| Extractor.WriteMembersFrame | src/phases/extractor.py:92 | writing members changes nothing but their write targets |
| Extractor.ImagePaths | src/phases/extractor.py:55 | the comprehension keeps a path exactly when it is extracted and has an image extension |
| Extractor.Validated | src/phases/extractor.py:57-63 | validation keeps no more paths than it is given |
| Extractor.ValidatedSnoc | src/phases/extractor.py:59-61 | validating one more path appends it exactly when it is a valid image |
| Extractor.ValidatedMembers | src/phases/extractor.py:57-63 | exactly the valid images are kept |
| Extractor.ValidatedAppend | src/phases/extractor.py:59-61 | validation distributes over concatenation, so input order is kept |
| Extractor.KeepValid | src/phases/extractor.py:58-63 | the validation loop yields `Validated` |
| Extractor.ExtractFromArchiveFacts | src/phases/extractor.py:30-65 | archive extraction succeeds exactly when the output directory can be made, the suffix names a kind, the file is an archive of that kind and no write target is a directory; it then returns exactly the listed joins that have an image extension and validate, leaves a regular file at every write target, and changes nothing else |
| Extractor.NamedEntries | src/phases/extractor.py:219-221 | the walked files kept by name are a subset of the walk |
| Extractor.CopyFromDirectory | src/phases/extractor.py:201-238 | the walk loop yields `ExtractFromDirectory`, the reference definition |
| Extractor.DirDestinations | src/phases/extractor.py:225-234 | no more destinations than walked files |
| Extractor.DestInside | src/phases/extractor.py:227-232 | the destination is `<out>/<rel>/<file>`, inside the output directory |
| Extractor.CopyStepInside | src/phases/extractor.py:228-233 | copying one valid image either fails at making its directory or succeeds, and stays inside the output directory |
| Extractor.FirstValidSame | src/phases/extractor.py:225 | a walked file outside the output directory validates in the walk's filesystem exactly when it validates originally |
| Extractor.CopyStepValid | src/phases/extractor.py:225-234 | a valid walked image either ends the walk with the directory error or is copied and the walk goes on, still unchanged outside the output directory |
| Extractor.CopyStepsPaths | src/phases/extractor.py:218-238 | a successful walk copies exactly the walked image-named files that are valid images in the original filesystem, in walk order |
| Extractor.CopyStepsPathsValid | src/phases/extractor.py:225-234 | the same when the first walked file is a valid image |
| Extractor.CopyStepsFrame | src/phases/extractor.py:218-238 | a successful walk changes nothing outside the output directory |
| Extractor.ExtractFromDirectoryFacts | src/phases/extractor.py:201-238 | directory extraction returns `<out>/<rel>/<file>` for each image-named walked file that validates, in walk order, and changes nothing outside the output directory |
| Extractor.Drawn | src/phases/extractor.py:300 | `random.sample` without replacement: exactly `k` paths, a sub-multiset of the files, so none is taken twice |
| Extractor.SampledFacts | src/phases/extractor.py:291-303 | the sample is a sub-multiset of the files; it fails exactly for random sampling with a negative size, and otherwise has exactly `min(sample_size, n)` paths; sequential mode keeps the first of them; random mode with enough room keeps all |
| Extractor.DeleteUnsampled | src/phases/extractor.py:305-313 | the deletion loop yields `RemoveUnsampled` |
| Extractor.RemoveUnsampledFacts | src/phases/extractor.py:305-313 | exactly the listed, unsampled regular files are removed, and at most one per listed file is counted |
| Extractor.AsWrittenMissingMethods | src/phases/extractor.py:283-326 | as written, a single image source and an `hf://` source both end in an AttributeError |
| Extractor.AsWrittenSingleImageExample | src/phases/extractor.py:281-285 | the concrete source `photo.jpg` fails as written |
| Extractor.PhotoIsImage | src/phases/extractor.py:283 | `photo.jpg` has an image extension under the default settings |
| Extractor.SingleImageCopied | src/phases/extractor.py:281-285 | corrected: a single image is copied to `<out>/<basename>`, which is the one returned path, holding the source's content |
| Extractor.ArchiveRouteValid | src/phases/extractor.py:286-318 | without sample mode, every path the archive route returns has an image extension and is a valid image |
| Extractor.SampleRouteFacts | src/phases/extractor.py:290-316 | in sample mode, the result is a sub-multiset of the extracted paths with exactly `min(sample_size, n)` of them for a non-negative size (the first ones in sequential mode), every extracted file left out is removed, and the sampled ones are as extraction left them |
| Extractor.OtherSources | src/phases/extractor.py:320-328 | corrected: an `hf://` source that is neither file nor directory hands the name after the five-character prefix to the dataset helper when it is available; any other such source raises "Invalid source path" |
| Extractor.OutputDirFailure | src/phases/extractor.py:277-278 | the output directory fails to be made exactly when its name is empty or a file holds it, and then every route fails |
| Memory.GetMemoryUsage | src/utils/memory_utils.py:12-53 | low exactly when the used percentage exceeds `memory_threshold`, critical exactly when it exceeds `low_memory_threshold`; a failed reading gives zeros and neither flag |
| Memory.CriticalImpliesLow | src/utils/memory_utils.py:15-42 | with the default thresholds 80 and 95, a critical reading is also a low one |
| Memory.OptimizeMemory | src/utils/memory_utils.py:55-83 | garbage is collected exactly when forced or when the reading before is low; both readings are returned |
| Memory.Shrink | src/utils/memory_utils.py:107 | the new size is at least 10, no larger than the old when that was at least 10, and at most half of it when that was at least 20 |
| Memory.SizeAt | src/utils/memory_utils.py:105-112 | the size in force for batch k is at least 1, and between 10 and b0 when b0 is at least 10 |
| Memory.SizeBefore | src/utils/memory_utils.py:95-112 | the same bounds for the size before reading k |
| Memory.SizeWithoutCritical | src/utils/memory_utils.py:106-112 | until a reading is critical, the size stays the initial one |
| Memory.BatchGenerator | src/utils/memory_utils.py:85-124 | driving the generator to the end yields `Generate`, and the `optimize_memory` calls it makes are `GenerateCalls`: these are the reference definitions; a zero size raises as `range` does and a negative one yields nothing |
| Memory.SliceLoop | src/utils/memory_utils.py:101-124 | the loop for a positive size yields `Batches` and `RunCalls`: a forced call on each critical reading and a plain call after each batch with `i + b < n` |
| Memory.RunStep | src/utils/memory_utils.py:103-124 | one iteration: the batch `items[i : min(i + b, n)]` with the size in force, the calls, then the rest from `i + b0` |
| Memory.StartOfIsProduct | src/utils/memory_utils.py:101 | the start of iteration j is `i + j * b0` |
| Memory.RunAt | src/utils/memory_utils.py:101-120 | batch j of a run starts at `i + j * b0` and is the slice of the size in force then |
| Memory.RunLength | src/utils/memory_utils.py:101 | a run has as many batches as `range(i, n, b0)` has elements |
| Memory.BatchesShape | src/utils/memory_utils.py:95-120 | there are ceil(n / b0) batches, and batch k is `items[k*b0 : min(k*b0 + b_k, n)]` for the size `b_k` in force |
| Memory.BatchAt | src/utils/memory_utils.py:101-120 | the same for one batch k |
| Memory.BatchesOrdered | src/utils/memory_utils.py:101-120 | with b0 at least 10, every batch is a non-empty contiguous slice of at most b0 items starting at k·b0, so batches are disjoint and in increasing index order |
| Memory.RunCoversWithoutCritical | src/utils/memory_utils.py:101-120 | without critical readings, the batches from index i concatenate to `items[i:]` |
| Memory.NoCriticalCovers | src/utils/memory_utils.py:101-120 | without critical readings, the batches concatenate to the items |
| Memory.SkipsAfterShrink | src/utils/memory_utils.py:101-120 | with 200 items, size 100 and a critical first reading, the batches are `items[0:50]` and `items[100:150]`, so half the items are never yielded |
| Memory.RunFixed | src/utils/memory_utils.py:101-120 | corrected generator: the batches concatenate to `items[i:]` and none is empty |
| Memory.GenerateFixed | src/utils/memory_utils.py:95-120 | corrected generator: it raises exactly for a zero size, and with a positive size yields every item exactly once, in order |
| Memory.FixedAgreesFrom | src/utils/memory_utils.py:101-120 | without critical readings the corrected run equals the original one |
| Memory.FixedAgreesWithoutCritical | src/utils/memory_utils.py:85-120 | without critical readings the corrected generator yields what the original does |
| Parallel.MapResultsOk | src/utils/parallel_utils.py:31-39 | running the tasks in order succeeds exactly when every task does, and result i is then task i's value |
| Parallel.MapResultsErr | src/utils/parallel_utils.py:31-39 | a failed run reports the exception of the first task that raises, every earlier task having succeeded |
| Parallel.OkPrefix | src/utils/parallel_utils.py:34-38 | the callback sees the values of the tasks before the first exception, in order, and no more |
| Parallel.OkPrefixAll | src/utils/parallel_utils.py:34-39 | when no task raises, the callback sees every result, in order |
| Parallel.PermutePreservesMultiset | src/utils/parallel_utils.py:47-53 | visiting the items in a completion order that is a permutation visits the same items, each as often |
| Parallel.PermutedResults | src/utils/parallel_utils.py:46-53 | the pooled path with a callback succeeds exactly when the in-order run does, and then returns the same results up to order |
| Parallel.ChunksFrom | src/utils/parallel_utils.py:76 | the batches of a positive size concatenate to the items, number ceil(n / size), are non-empty, at most the size, and all but the last exactly the size |
| Parallel.Chunks | src/utils/parallel_utils.py:76 | a zero batch size raises, a negative one gives no batches |
| Parallel.MapFunction | src/utils/parallel_utils.py:81-104 | empty input gives []; otherwise the call succeeds exactly when `func` does on every item, with its values in input order |
| Parallel.RunInParallel | src/utils/parallel_utils.py:106-128 | results come in the order of the task list and the call succeeds exactly when every task does |
| Parallel.RunInOrder | src/utils/parallel_utils.py:31-39 | the sequential loop returns the in-order run and passes each result before the first exception to the callback when there is one |
| Parallel.ParallelProcessor.constructor | src/utils/parallel_utils.py:11-16 | parallel on, `cpu_count() or 4` workers, threads and chunk size 1 unless configured |
| Parallel.ParallelProcessor.ProcessItems | src/utils/parallel_utils.py:18-60 | sequential when parallel is off or there is at most one item; with a callback the pooled path returns results in completion order; without one, `executor.map` keeps input order |
| Parallel.ParallelProcessor.ProcessBatches | src/utils/parallel_utils.py:62-79 | the chunks of `batch_size` are handed to `process_items` without a callback; a zero size raises |
| Parallel.ParallelProcessor.SetMaxWorkers | src/utils/parallel_utils.py:130-140 | the worker count becomes `max(1, workers)`, so at least one; nothing else changes |
| Parallel.ParallelProcessor.EnableParallel | src/utils/parallel_utils.py:142-152 | only the parallel flag changes |
| Parallel.ParallelProcessor.UseProcessPool | src/utils/parallel_utils.py:154-164 | only the pool kind changes |
| Progress.FloorDiv | src/utils/progress_utils.py:53 | Python's `//`: the quotient rounded toward negative infinity, for either sign of divisor |
| Progress.FilledBounds | src/utils/progress_utils.py:52-53 | while no more items than the total are processed, 0 to 30 cells are filled, all 30 exactly when everything is processed |
| Progress.BarShape | src/utils/progress_utils.py:52-54 | the bar then has exactly 30 cells, the filled ones first and the empty ones after |
| Progress.FilledMonotone | src/utils/progress_utils.py:53 | processing more never empties a cell |
| Progress.Percentage | src/utils/progress_utils.py:48 | 0 without a positive total; between 0 and 100 while no more than the total is processed; 100 when everything is |
| Progress.ProgressManager.constructor | src/utils/progress_utils.py:9-15 | progress shown unless switched off, nothing started, no counts, no stage |
| Progress.ProgressManager.Start | src/utils/progress_utils.py:17-35 | the stage and total are recorded, the count restarts at 0, the clock reading is kept, and it reports that tracking started |
| Progress.ProgressManager.Update | src/utils/progress_utils.py:37-74 | the count grows by exactly the increment even when the bar then fails; drawing the bar with a zero total divides by zero; otherwise the return is the percentage |
| Progress.ProgressManager.Finish | src/utils/progress_utils.py:76-96 | the summary carries the stage and counts unchanged, the time since the start (0 before one, and for a start time of 0, which is falsy) and the rate when that time is positive |
| Reports.OpenReports | src/utils/report_utils.py:11-14 | the report directory (by default `output/reports`) exists afterwards; opening fails exactly when it cannot be made |
| Reports.CsvRow | src/utils/report_utils.py:40-44 | one cell per header field: the row's value, or "" for a missing key |
| Reports.CsvPathFacts | src/utils/report_utils.py:30-35 | the report is the file `<report_name>_<timestamp>.csv` directly inside the report directory |
| Reports.CsvReportFacts | src/utils/report_utils.py:16-46 | no data gives no report and no change; otherwise the call fails exactly when the directory cannot be made, the path is a directory, or a later row has a key the first row lacks; a written report has the first row's keys as header and each row's values in header order, and nothing else changes |
| Reports.StartRow | src/utils/report_utils.py:90-93 | a row starts with the columns `file_path` and `reason`, holding the path and the reason |
| Reports.CopyInfoFacts | src/utils/report_utils.py:96-98 | copying the info keeps the row's first columns in place and adds every info key other than the reason key, with its value |
| Reports.RejectedRowFacts | src/utils/report_utils.py:89-100 | `file_path` and `reason` come first, then the other info keys; the reason is the info's reason or "Unknown reason" unless an info key of that name overrides it; every other info value is copied |
| Reports.RejectedRowColumns | src/utils/report_utils.py:89-100 | the columns of a rejected-file row, as above |
| Reports.RejectedRowValues | src/utils/report_utils.py:89-100 | the values of a rejected-file row, as above |
| Reports.RejectedRows | src/utils/report_utils.py:87-100 | one row per rejected file, in the dictionary's order |
| Reports.BuildRejectedRows | src/utils/report_utils.py:87-100 | the outer loop builds exactly those rows |
| Reports.CopyRowInfo | src/utils/report_utils.py:96-98 | the inner loop copies exactly the info keys other than the reason key, in their order |
| Reports.SummaryReportFacts | src/utils/report_utils.py:48-75 | the summary holds every result with its value, `generated_at` is the timestamp (added last when new), and it is written to the given path when there is one |
| Database.DropKey | src/utils/database_utils.py:100-102 | the keys other than the deleted one, in order, still distinct |
| Database.RemoveKey | src/utils/database_utils.py:101-102 | `del` leaves exactly the other keys, with their values, and keeps the dictionary well formed |
| Database.WithoutKeysFacts | src/utils/database_utils.py:99-102 | deleting a list of keys in turn leaves exactly the keys not in the list, with their values |
| Database.StripColumns | src/utils/database_utils.py:99-102 | the deletion loop computes the stored metadata |
| Database.StoredMetadataFacts | src/utils/database_utils.py:93-104 | the stored metadata is the image data minus `width`, `height`, `format` and `processed_path`, values unchanged |
| Database.MergedFacts | src/utils/database_utils.py:144-145 | `dict.update` keeps the old keys first and in order, gives every new key its new value and every other old key its old value |
| Database.UpdatedRow | src/utils/database_utils.py:141-159 | the status is replaced, the processed path only when the new one is truthy, the metadata only when metadata is given; the other columns are untouched |
| Database.UpdatedMetadataFacts | src/utils/database_utils.py:141-147 | the updated metadata is well formed, and the given keys win over the old ones, which otherwise stay |
| Database.NumberedInsert | src/utils/database_utils.py:25-73 | inserting at one more than the largest row id keeps the ids 1, 2, … without gaps |
| Database.DatabaseManager.constructor | src/utils/database_utils.py:10-50 | the database path (default `database/images.db`) with both tables empty |
| Database.DatabaseManager.AddBatch | src/utils/database_utils.py:52-77 | a new batch row with status "created" and metadata NULL when falsy; the new row id is returned; a batch id already stored breaks the UNIQUE constraint and changes nothing |
| Database.DatabaseManager.RegisterImage | src/utils/database_utils.py:79-116 | a new image row with status "registered", width and height (default 0), format and processed path (default "") from the data and the rest as metadata; its row id is returned and no other row changes |
| Database.DatabaseManager.UpdateImage | src/utils/database_utils.py:118-164 | false and no change for an unknown id; otherwise only that row changes, as `UpdatedRow` says |
| Checkpoints.WithMetadata | src/utils/checkpoint_utils.py:56-61 | the saved state keeps every caller entry and gains `_metadata` with the batch id, timestamp and file name |
| Checkpoints.FilenameRoundTrip | src/utils/checkpoint_utils.py:199-204 | the directory scan recovers the batch id and timestamp from a file `save_checkpoint` named, for a batch id without `_` |
| Checkpoints.ParseNameWith | src/utils/checkpoint_utils.py:199-204 | the scan parses `<batch_id>_<timestamp>.<ext>` to that id and timestamp |
| Checkpoints.IntToStringNoSeparators | src/utils/checkpoint_utils.py:53 | a written timestamp holds neither `_` nor `.` |
| Checkpoints.FilenameSameSecond | src/utils/checkpoint_utils.py:52-53 | two saves of a batch share a file name exactly when they fall in the same second |
| Checkpoints.InsertDesc | src/utils/checkpoint_utils.py:218 | inserting keeps every entry and adds one |
| Checkpoints.InsertDescSorted | src/utils/checkpoint_utils.py:218 | inserting into a newest-first list keeps it newest first |
| Checkpoints.SortDesc | src/utils/checkpoint_utils.py:146 | the sort by timestamp, descending, is a permutation of its input and newest first |
| Checkpoints.FirstMaxIndex | src/utils/checkpoint_utils.py:163 | `max` returns the first of the largest keys |
| Checkpoints.NewestFile | src/utils/checkpoint_utils.py:163 | that is the first of the files with the latest modification time |
| Checkpoints.SortedHeadIsFirstMax | src/utils/checkpoint_utils.py:146-147 | the head of the stable descending sort is the first-appended entry among those with the largest timestamp |
| Checkpoints.SortDescHead | src/utils/checkpoint_utils.py:146-147 | the head of the sort is the first entry unless the rest holds a strictly newer one |
| Checkpoints.RemoveNames | src/utils/checkpoint_utils.py:244-249 | removing the listed names leaves exactly the other files |
| Checkpoints.CountRemovedIsDistinctExisting | src/utils/checkpoint_utils.py:244-249 | the deletion count is the number of distinct listed files that exist, however often one is listed |
| Checkpoints.ScanEntries | src/utils/checkpoint_utils.py:196-215 | every scan entry comes from a matching file whose name parses to the entry's batch id and timestamp; names that do not parse are skipped |
| Checkpoints.CheckpointManager.constructor | src/utils/checkpoint_utils.py:12-21 | enabled, directory `checkpoints` and a 60-second interval unless configured; no checkpoint yet |
| Checkpoints.CheckpointManager.Glob | src/utils/checkpoint_utils.py:193-194 | only existing checkpoint files matching `<batch_id>_*.checkpoint` (or `*.checkpoint`) are listed |
| Checkpoints.CheckpointManager.Save | src/utils/checkpoint_utils.py:37-103 | disabled or failing: None, and the index and last checkpoint time unchanged; the checkpoint file `<batch_id>_<int seconds>.checkpoint` holding the state with `_metadata` is written unless saving is disabled or that write fails, so a failed index write leaves it behind; otherwise the index gains one entry at its end (an unreadable index starts over) and the last checkpoint time moves to the end of the save |
| Checkpoints.CheckpointManager.LatestFromIndex | src/utils/checkpoint_utils.py:137-153 | the index route answers only with an existing file that is the first-appended of the newest entries; it declines when that file is missing |
| Checkpoints.CheckpointManager.LatestByMtime | src/utils/checkpoint_utils.py:155-164 | no answer exactly when no file matches; otherwise the first of the newest matching files by modification time |
| Checkpoints.CheckpointManager.GetLatest | src/utils/checkpoint_utils.py:125-164 | None when disabled; the index's answer when it has one; the modification-time fallback otherwise |
| Checkpoints.CheckpointManager.ListCheckpoints | src/utils/checkpoint_utils.py:166-219 | [] when disabled; a truthy batch id with a readable index that has a list gives that list in append order, unsorted; otherwise the parsed matching files, newest first |
| Checkpoints.CheckpointManager.DeleteFiles | src/utils/checkpoint_utils.py:242-251 | the loop removes exactly the listed files and counts the distinct ones that existed |
| Checkpoints.CheckpointManager.Cleanup | src/utils/checkpoint_utils.py:221-269 | 0 and no change when disabled or at most `keep_count` entries are listed; otherwise the files of the entries from position `keep_count` on are deleted and counted, and the index is cut to its first `keep_count` entries |
| Checkpoints.CheckpointManager.CleanupNewest | src/utils/checkpoint_utils.py:221-269 | corrected cleanup: the same, but the listing and the index are sorted newest first before the cut |
| Checkpoints.SortedCutKeepsNewest | src/utils/checkpoint_utils.py:240-262 | after the corrected sort every kept entry is at least as new as every dropped one |
| Checkpoints.ShouldCreateMonotone | src/utils/checkpoint_utils.py:23-35 | once the interval test is true it stays true as time passes |
| Checkpoints.SameSecondSaves | src/utils/checkpoint_utils.py:52-90 | two saves in one second write one file but two index entries |
| Checkpoints.SortTwo | src/utils/checkpoint_utils.py:146 | sorting two entries newest first swaps them when the first is older |
| Checkpoints.SaveTwoSeconds | src/utils/checkpoint_utils.py:37-99 | two saves a second apart give two files, indexed in save order |
| Checkpoints.CleanupKeepsOldest | src/utils/checkpoint_utils.py:235-262 | after those saves, cleanup keeping one deletes the newer file and keeps the older |
| Checkpoints.CorrectedCutDropsOlder | src/utils/checkpoint_utils.py:240-241 | on that index, the corrected cut drops the older entry and keeps the newer |
| BatchProcessing.BatchIdShape | src/batch_processor.py:82 | a batch id is `batch` followed by exactly eight digits |
| BatchProcessing.ScratchDirsShape | src/batch_processor.py:86-89 | the scratch directories are `<temp>/<batch_id>_extracted`, `_renamed`, `_filtered` and `_converted`, four different paths |
| BatchProcessing.SubBatchFacts | src/batch_processor.py:127-152 | one sub-batch only appends records, none of them an error record; without an exception it appends the six start and completion records of rename, filter and convert, and each total grows by the count its phase recorded; with one, the records end with the start of the phase that raised |
| BatchProcessing.RunBatchesFacts | src/batch_processor.py:118-155 | over all sub-batches: one block of six records per sub-batch, numbered from 0, and each total is the sum of its phase's recorded counts |
| BatchProcessing.ResultsDocument | src/batch_processor.py:92-183 | the results hold `batch_id`, `source`, `timestamp`, `stats` and `package`, in that order |
| BatchProcessing.WriteReportFacts | src/batch_processor.py:187-191 | writing the report either leaves the results in `<report_directory>/<batch_id>_report.json` and the records as they were, or appends one error record; a missing `report_directory` key is such an error |
| BatchProcessing.FinishFacts | src/batch_processor.py:162-201 | packaging then reporting: a processed run's records end with the packaging's start and completion and the report holds the results; a failed one ends with one error record |
| BatchProcessing.AttemptFacts | src/batch_processor.py:99-207 | the body of the `try` ends in one of the shapes below |
| BatchProcessing.RunLog | src/batch_processor.py:71-216 | a successful run's records are the extraction's start and completion (at least one image), one block of six per sub-batch and the packaging's start and completion, with no error record; the totals are the sums of the recorded counts and `packaged` is the converted total; a failed run ends with exactly one error record, or is the no-images exit |
| BatchProcessing.NoImagesRun | src/batch_processor.py:103-111 | when extraction finds nothing the result is the no-images error, only the two extraction records exist and no later phase runs |
| BatchProcessing.CleanupOnEveryPath | src/batch_processor.py:208-216 | with `delete_after_packaging` on (the default), none of the four scratch directories survives, whatever path the run took |
| BatchProcessing.RemoveAllFacts | src/batch_processor.py:210-216 | removing the scratch directories leaves none of them and creates nothing |
| BatchProcessing.MissingTempDirectory | src/batch_processor.py:86 | a missing `temp_directory` key raises before the `try`: no record, no change |
| BatchProcessing.RunSubBatches | src/batch_processor.py:124-155 | the `for` loop over the sub-batches, left at the first exception, computes the sub-batch run |
| BatchProcessing.RemoveScratch | src/batch_processor.py:210-216 | the `finally` loop computes the removal of the scratch directories |
| BatchProcessing.InitialResults | src/batch_processor.py:218-240 | the batch, its source and start time, then every counter at zero |
| BatchProcessing.SetupOf | src/batch_processor.py:53-69 | the defaults: `data/temp`, `output`, `checkpoints`, parallel on, 8 workers, a 10-minute interval |
| BatchProcessing.SetUpDirectories | src/batch_processor.py:56-58 | the three directories exist afterwards, nothing else is lost, and it fails exactly when one cannot be made |
| BatchProcessing.BatchProcessor.constructor | src/batch_processor.py:33-69 | the configuration and the settings read from it |
| BatchProcessing.BatchProcessor.Process | src/batch_processor.py:71-216 | the loops compute the run `ProcessRun` defines, over the sub-batches the memory generator yields as written, about which `RunLog`, `NoImagesRun` and `CleanupOnEveryPath` hold |
| BatchProcessing.BatchProcessor.FilterByResolution | src/batch_processor.py:492-502 | only `min_resolution` changes in the configuration; the processor itself is returned |
| BatchProcessing.BatchProcessor.SetOutputQuality | src/batch_processor.py:504-514 | only `quality` changes |
| BatchProcessing.BatchProcessor.SetOutputFormat | src/batch_processor.py:516-526 | only `output_format` changes, to the lower-cased name |
| BatchProcessing.BatchProcessor.EnableParallelProcessing | src/batch_processor.py:528-541 | `parallel_processing` is set; `max_workers` only for a truthy count |
| BatchProcessing.BatchProcessor.EnableCheckpointing | src/batch_processor.py:543-555 | `use_checkpointing` and `checkpoint_interval` are set, nothing else |
| BatchComparison.Sub | src/batch_processor.py:355 | Python's `-`: defined exactly for two numbers, and the integer difference for integers and booleans |
| BatchComparison.SubAntisymmetric | src/batch_processor.py:355 | swapping the operands negates the difference |
| BatchComparison.DiffKeyInjective | src/batch_processor.py:354 | distinct stats have distinct `<stat>_diff` keys |
| BatchComparison.StatDiffsDefined | src/batch_processor.py:352-355 | the differences fail exactly when a stat present in both reports is not a number in one of them |
| BatchComparison.StatDiffsFacts | src/batch_processor.py:352-355 | every stat present in both gets `<stat>_diff`, the second value minus the first; a stat missing from either gets none; earlier entries stay and nothing else is added |
| BatchComparison.StatDiffsStep | src/batch_processor.py:353-355 | one turn of that loop keeps the property |
| BatchComparison.StatDiffsPut | src/batch_processor.py:355 | the same when the stat is in both reports |
| BatchComparison.FillStatDiffs | src/batch_processor.py:352-355 | the loop over the numeric stats computes the differences |
| BatchComparison.FailureStays | src/batch_processor.py:352-355 | once a subtraction raises, later stats do not matter |
| BatchComparison.FillFormatDiffs | src/batch_processor.py:367-377 | the loop over the union of both batches' formats, in any order the set yields, computes one difference per format, a missing format counting as 0 |
| BatchComparison.FormatDiffsSwap | src/batch_processor.py:370-375 | swapping the batches keeps the formats and negates every format difference |
| BatchComparison.Summary | src/batch_processor.py:380-403 | at most three summary lines: images, processed images, dimensions |
| BatchComparison.StartDiffs | src/batch_processor.py:340-342 | the comparison starts with just the timestamp |
| BatchComparison.WithFormats | src/batch_processor.py:367-403 | the differences are kept, the summary is computed from them, and format differences appear only when both reports have formats |
| BatchComparison.BatchesMap | src/batch_processor.py:336-339 | both batch ids are keys of `batches` |
| BatchComparison.MissingKeyGivesNone | src/batch_processor.py:325-328 | a report without `batch_id` or `stats` gives None |
| BatchComparison.UnreadableGivesNone | src/batch_processor.py:318-322 | a report that cannot be read gives None |
| BatchComparison.CompareUsesStatDiffs | src/batch_processor.py:331-403 | for well-formed reports the comparison fails when the differences do, and otherwise holds them and the summary they give |
| BatchComparison.Has | src/batch_processor.py:353 | `in` on a stats value: raises exactly unless it is an object, a list or a string; key membership for an object, element membership for a list |
| BatchComparison.HasBoth | src/batch_processor.py:353 | `stat in stats1 and stat in stats2`: false without looking at the second when the first is false, and raising when the first raises |
| BatchComparison.CompareOtherStats | src/batch_processor.py:331-403 | stats that are not both objects: the comparison fails exactly when a membership test raises or a key is in both, and otherwise has no differences, no format differences and an empty summary |
| BatchComparison.ListStatsCompareToNothing | src/batch_processor.py:352-367 | a list of stats naming none of the compared keys gives a comparison with no differences, whatever the other report's stats are |
| BatchComparison.SharedStatInOtherStatsFails | src/batch_processor.py:353-355 | a key found in both reports when one stats is not an object makes the comparison fail |
| BatchComparison.NoKeyInBoth | src/batch_processor.py:352-367 | the scan of the membership tests is true exactly when none raises and no key is in both |
| BatchComparison.StartDiffsFacts | src/batch_processor.py:340-355 | the timestamp comes first, and `<stat>_diff` exists exactly when both reports have the stat, holding the second value minus the first |
| BatchComparison.StartStays | src/batch_processor.py:340-355 | the timestamp stays the first entry |
| BatchComparison.TestReportsExample | tests/test_batch_processor.py:75-131 | for 100, 80, 20 against 120, 100, 20 images the differences are 20, 20 and 0 and the summary opens with the 20 extra images |
| BatchComparison.ExampleDiffs | tests/test_batch_processor.py:129-131 | the differences of that example |
| BatchComparison.SummaryFirstLine | src/batch_processor.py:381-384 | with more images in the second batch, the summary opens with how many more |
| BatchComparison.StatDiffsSwap | src/batch_processor.py:352-355 | swapping the reports negates every stat difference |
| BatchComparison.SelfComparison | src/batch_processor.py:352-403 | a batch compared with itself has only zero differences and an empty summary |
| BatchComparison.CompareReports | src/batch_processor.py:306-421 | the method with both loops computes `CompareBatches`, including its None cases and stats that are lists or strings, and the comparison is written beside the first report |
| Paths.Join | src/batch_processor.py:86-89 | `os.path.join` of a plain directory and a relative name puts one slash between them |
| Paths.Basename | src/phases/filter.py:60 | `os.path.basename` is the slash-free tail of the path |
| Paths.JoinInjective | src/phases/renamer.py:34-39 | two names joined onto one directory give one path only when the names are equal |
| Paths.BasenameOfJoin | src/phases/filter.py:60-62 | the basename of `<dir>/<name>` is the name |
| Paths.DirnameOfJoin | src/utils/report_utils.py:32-35 | the directory of `<dir>/<name>` is the directory again |
| Paths.SplitExt | src/utils/string_utils.py:43 | `os.path.splitext`: the two parts rejoin to the path, and the extension is empty or one dot followed by neither dot nor slash |
| Paths.Stem | src/phases/converter.py:38 | the stem followed by the suffix is the name |
| Paths.StemOfDotted | src/phases/converter.py:38-40 | `<stem>.<ext>` has that stem and that suffix |
| Paths.WithStemEndsWith | src/phases/packager.py:38 | `with_stem` keeps the suffix: the new path ends with the new stem and the old suffix |
| Files.Copy | src/phases/filter.py:62 | `shutil.copy2` succeeds exactly for an existing source not copied onto itself, and writes the source's content at the target, a directory target receiving the basename |
| Files.MakeDirs | src/utils/report_utils.py:14 | `os.makedirs(exist_ok=True)` fails exactly for an empty name or an existing non-directory, and otherwise adds the directory and changes nothing else |
| Files.RemoveTree | src/batch_processor.py:212-214 | `shutil.rmtree` removes the directory and everything inside it, and nothing else |
| Files.CopyIntoDir | src/phases/filter.py:60-62 | a copy to `<out>/<name>` lands strictly inside `out` |
| Files.ExistingFiles | src/phases/packager.py:55-66 | the inputs that are regular files, in order |
| Text.FormatPaddedValue | src/phases/renamer.py:34 | a `:06d` rendering reads back as the number it renders |
| Text.ParseIntIntToString | src/utils/checkpoint_utils.py:204 | `int(str(i)) == i` |
| Text.IntToStringInjective | src/utils/checkpoint_utils.py:53 | distinct integers render differently |
| Text.LowerIdempotent | src/batch_processor.py:525 | lower-casing twice is lower-casing once |
| Text.SortStrings | src/phases/renamer.py:78 | `sorted(file_paths)` is ordered by code point and is a permutation of its input |
| Text.LexLessTotal | src/phases/renamer.py:78 | any two distinct strings are ordered one way or the other |
| Text.LexLessTransitive | src/phases/renamer.py:78 | the string order is transitive |
| Paths.Suffix | src/phases/renamer.py:30 | `Path.suffix` is empty or a dot-led tail of the name |
| Text.ParseInt | src/utils/checkpoint_utils.py:203-204 | `int()` of a non-empty string of digits is the number those digits spell |
| Text.Split | src/utils/checkpoint_utils.py:200 | `str.split` always yields at least one part, and a string without the separator is its only part |

## Left out

- Image decoding and encoding, EXIF and the conversion itself: the image library is abstract. A file's content says whether it opens and with which dimensions and format. `convert_image` is a write that succeeds for an openable image.
- Zip and tar archives are read as lists of members. The streaming extraction and progress bars of tar files, and the recursion into nested archives, are not modelled.
- Extractor.ZipTarget: does not record the missing parent directories `ZipFile.extract` creates for a member, and keeps the spelling of the output directory and of member names that do not escape, which `extract` normalises (a doubled slash or a "." component names the same file).
- Extractor.WriteTarget: tar members are written at the plain join, as `tarfile` does without an extraction filter; the `data` filter that recent Python versions apply by default, which refuses absolute and climbing names, is not modelled.
- Packager.CreatePackage: the file a refused compression level leaves behind is modelled as unreadable content, not as the bytes of its one local header.
- `calculate_average_color` and the `avg_color` entry of the analysis are not modelled: they need pixel data, which the image abstraction does not have.
- The dataset download route (`hf://…`) is modelled only as the call it makes. Network access, retries and the dataset library are not part of this model.
- Real parallelism is not modelled. The thread and process pools of `process_items`, `map_function` and `run_in_parallel` appear only as an arbitrary completion order of the sequential outcomes. `use_process_pool` only sets a flag.
- The `memory_efficient` decorator is not modelled: it works by inspecting the types of its arguments at run time.
- Floating point is left out: exact reals or integers stand in where a value is kept.
  - the analyser's megabyte sizes, its average size and its resolution percentage;
  - the float division inside `round(width / height, 3)` in the aspect class, which the model rounds to thousandths from the exact ratio;
  - the percent changes of `compare_batches`;
  - the progress percentage, ETA and items per second;
  - the package size in megabytes.
- Analyzer.AspectType: rounds the exact ratio rather than the float quotient, so a ratio within float error of a rounding tie (0.8995, 1.1005, 0.0005) may be classified differently.
- Analyzer.RoundDiv: models Python's `round` of the float quotient as round-half-to-even on the exact quotient, so the float error of the division is not modelled.
- The clock, random numbers (`random.randint` for the batch id, `random.sample` in sample mode, the digits of `generate_unique_id`) and memory readings are parameters. Nothing models where they come from.
- Console output (`print`, the progress bar drawn to the terminal) is not modelled beyond the bar's text.
- JSON, pickle and CSV encoding are not modelled. A report or checkpoint on disk holds the structured value written to it.
- The SQLite file is not modelled: the tables are in memory and start empty, so rows an existing database file already holds are not represented.
- Database.DatabaseManager.constructor: does not model `os.makedirs(os.path.dirname(db_path))`, which raises for a database path without a directory part.
- `load_checkpoint` is not modelled. Neither are the orchestrator's `_save_checkpoint`, `_get_files_from_directory`, `execute`, `package` and `analyze_source`: `process` does not use them, or they only delegate to phases modelled on their own.
- Checkpoints.CheckpointManager.ListCheckpoints: assumes the checkpoint directory exists, as the constructor creates it when checkpoints are enabled; the `os.path.exists` test of the scan is not modelled.
- `os.path.abspath` is not modelled: paths are compared as given.
- Files.MakeDirs: records only the leaf directory, not the missing intermediate directories `os.makedirs` also creates.
- Files.Copy: does not require the target's parent directory to exist, which `shutil.copy2` does.
- Text.Lower: lower-cases ASCII letters only; `str.lower` also maps other Unicode letters.
- Text.ParseInt: rejects the surrounding whitespace and the digit-separating underscores `int()` accepts.
- Text.FirstDigitRun: finds ASCII digits only, where the pattern `\d` of `re.findall` also matches other Unicode decimal digits.
- BatchComparison.Compare: treats the batch ids `True` and `1` (or `1` and `1.0`) as different, where Python's dictionary of batches takes them as one key.
- The setters of `BatchProcessor` change its configuration only. The orchestrator reads its settings once, at construction, so a setter call does not reach a phase already built; the model reproduces this.
- Tests that call functions the code does not define, or that patch nonexistent methods, are not used as specifications.

## Findings

| source | as written | input that shows it | evidently intended | confidence | as-written member | corrected member |
|---|---|---|---|---|---|---|
| src/utils/memory_utils.py:101-112 | the start indices come from `range(0, n, b0)` with the initial size `b0`, but after a critical reading the slice has the halved size, so the items between one short slice and the next start are never yielded | 200 items, initial size 100, first reading critical: batches `items[0:50]` and `items[100:150]`; items 50–99 and 150–199 are skipped | each batch starts where the previous one ended, so every item is yielded once, in order | high; not executed | Memory.SkipsAfterShrink | Memory.GenerateFixed, Memory.FixedAgreesWithoutCritical |
| src/phases/extractor.py:283-285, src/phases/extractor.py:323-326 | a single image file is handed to `self.copy_single_file`, and an `hf://` source to `hf_manager.extract_dataset`; neither method is defined, so both routes raise `AttributeError` | source `photo.jpg`, an existing image file | the image is copied to `<output_dir>/<basename>` and returned as the only extracted file | high; not executed | Extractor.AsWrittenMissingMethods, Extractor.AsWrittenSingleImageExample | Extractor.SingleImageCopied, Extractor.OtherSources |
| src/utils/checkpoint_utils.py:235-262 | with a batch index, the listing is in append order (oldest first), so `[keep_count:]` deletes the newest checkpoints and the index keeps the oldest, while the documentation says the latest are kept | two saves one second apart, then cleanup keeping 1: the newer checkpoint is deleted and the older kept | sort newest first before cutting, so the newest `keep_count` are kept | high; not executed | Checkpoints.CheckpointManager.Cleanup, Checkpoints.CleanupKeepsOldest | Checkpoints.CheckpointManager.CleanupNewest, Checkpoints.SortedCutKeepsNewest, Checkpoints.CorrectedCutDropsOlder |
