/** Model of src/utils/checkpoint_utils.py: a `CheckpointManager` over its
    checkpoint directory. The directory holds checkpoint files, named
    `<batch_id>_<unix seconds>.checkpoint`, and one JSON index per batch,
    `<batch_id>_index.json`, listing that batch's saves in append order.
    The clock, a write failure and the order in which the directory is
    listed are inputs. */
module Checkpoints {
  import opened Common
  import opened Text
  import opened Paths

  /** An entry of a checkpoint listing: one recorded in a batch index by
      `save_checkpoint`, or one reconstructed from a file name by the
      directory scan of `list_checkpoints`. */
  datatype CheckpointInfo =
    | Indexed(filename: string, timestamp: int, stateKeys: set<string>)
    | Scanned(filename: string, path: string, batchId: string, timestamp: int)

  /** A pickled checkpoint: the saved state and the file's modification time. */
  datatype CheckpointFile = CheckpointFile(state: map<string, Value>, mtime: real)

  /** A batch index as `json.load` reads it: a dictionary holding the list
      under "checkpoints" when that key is present, or text that does not
      decode. */
  datatype IndexFile = Parsed(checkpoints: Option<seq<CheckpointInfo>>) | Corrupt

  /** The settings a `CheckpointManager` reads from its configuration. */
  /** Which write of `save_checkpoint` raises, if any: the checkpoint file
      is written first, the index after it. */
  datatype WriteFailure = NoFailure | CheckpointWriteFails | IndexWriteFails

  datatype CheckpointConfig = CheckpointConfig(
    enableCheckpoints: Option<bool>, checkpointDirectory: Option<string>, intervalSeconds: Option<real>)

  /** `f"{batch_id}_{timestamp}.checkpoint"`. */
  function CheckpointFilename(batchId: string, timestamp: int): string
  {
    batchId + "_" + IntToString(timestamp) + ".checkpoint"
  }

  /** The `_metadata` record of a save. */
  function Metadata(batchId: string, timestamp: int): Value
  {
    VMap(map[
      "batch_id" := VStr(batchId),
      "timestamp" := VInt(timestamp),
      "checkpoint_id" := VStr(CheckpointFilename(batchId, timestamp))])
  }

  /** The state `save_checkpoint` pickles: the caller's entries, with
      `_metadata` added or replaced. */
  function WithMetadata(state: map<string, Value>, batchId: string, timestamp: int): (r: map<string, Value>)
    ensures r.Keys == state.Keys + {"_metadata"}
    ensures forall k :: k in state && k != "_metadata" ==> r[k] == state[k]
    ensures r["_metadata"] == Metadata(batchId, timestamp)
  {
    state["_metadata" := Metadata(batchId, timestamp)]
  }

  /** The glob patterns `*.checkpoint` (no batch id) and
      `<batch_id>_*.checkpoint`; pathlib's `*` also matches a leading dot. */
  predicate MatchesPattern(name: string, batchId: Option<string>)
  {
    match batchId
    case None => EndsWith(name, ".checkpoint")
    case Some(b) =>
      |name| >= |b| + 1 + |".checkpoint"| && StartsWith(name, b + "_") && EndsWith(name, ".checkpoint")
  }

  /** The file-name parse of the directory scan: the batch id is the text
      before the first `_`, the timestamp the integer before the first `.`
      of the next part; anything else is skipped. */
  function ParseCheckpointName(name: string): Option<(string, int)>
  {
    var parts := Split(name, '_');
    if |parts| < 2 then None
    else
      match ParseInt(Split(parts[1], '.')[0])
      case None => None
      case Some(t) => Some((parts[0], t))
  }

  /** The scan recovers the batch id and timestamp of a file `save_checkpoint`
      wrote, for a batch id without `_`. */
  lemma FilenameRoundTrip(batchId: string, timestamp: int)
    requires '_' !in batchId
    ensures ParseCheckpointName(CheckpointFilename(batchId, timestamp)) == Some((batchId, timestamp))
  {
    var ext := ".checkpoint";
    assert '_' !in ext && ext == ['.'] + ext[1..];
    ParseNameWith(batchId, timestamp, ext[1..]);
  }

  /** The parse of `<batch_id>_<timestamp>.<ext>` for a batch id and an
      extension without `_`. */
  lemma ParseNameWith(batchId: string, timestamp: int, ext: string)
    requires '_' !in batchId && '_' !in ext
    ensures ParseCheckpointName(batchId + "_" + IntToString(timestamp) + ("." + ext)) == Some((batchId, timestamp))
  {
    var digits := IntToString(timestamp);
    IntToStringNoSeparators(timestamp);
    var tail := digits + ['.'] + ext;
    assert '_' !in tail;
    assert batchId + "_" + digits + ("." + ext) == batchId + ['_'] + tail;
    SplitAt(batchId, '_', tail);
    SplitAt(digits, '.', ext);
    ParseIntIntToString(timestamp);
  }

  /** A written integer holds neither separator of the file name. */
  lemma IntToStringNoSeparators(i: int)
    ensures '_' !in IntToString(i) && '.' !in IntToString(i)
  {
    var digits := IntToString(i);
    if i < 0 {
      assert digits == "-" + NatToString(-i);
      assert forall k :: 1 <= k < |digits| ==> IsDigit(digits[k]);
    } else {
      assert AllDigits(digits);
    }
  }

  /** Two saves of one batch share a file name exactly when they fall in the
      same second. */
  lemma FilenameSameSecond(batchId: string, t1: int, t2: int)
    ensures CheckpointFilename(batchId, t1) == CheckpointFilename(batchId, t2) <==> t1 == t2
  {
    if CheckpointFilename(batchId, t1) == CheckpointFilename(batchId, t2) {
      var a := IntToString(t1);
      var b := IntToString(t2);
      var p := batchId + "_";
      assert CheckpointFilename(batchId, t1) == p + a + ".checkpoint";
      assert CheckpointFilename(batchId, t2) == p + b + ".checkpoint";
      assert |a| == |b|;
      assert a == (p + a + ".checkpoint")[|p|..|p| + |a|];
      assert b == (p + b + ".checkpoint")[|p|..|p| + |b|];
      IntToStringInjective(t1, t2);
    }
  }

  // ---------------------------------------------------------------- ordering

  ghost predicate Descending(s: seq<CheckpointInfo>)
  {
    forall i, j :: 0 <= i < j < |s| ==> s[i].timestamp >= s[j].timestamp
  }

  /** Inserts `x` before the first entry that is not newer, so `x` stays
      ahead of later entries with the same timestamp (a stable sort). */
  function InsertDesc(x: CheckpointInfo, s: seq<CheckpointInfo>): (r: seq<CheckpointInfo>)
    ensures |r| == |s| + 1
    ensures multiset(r) == multiset(s) + multiset{x}
  {
    if s == [] || s[0].timestamp <= x.timestamp then [x] + s
    else
      var rest := InsertDesc(x, s[1..]);
      assert s == [s[0]] + s[1..];
      assert multiset([s[0]] + rest) == multiset{s[0]} + multiset(rest);
      [s[0]] + rest
  }

  lemma ConsDescending(h: CheckpointInfo, t: seq<CheckpointInfo>)
    requires Descending(t)
    requires forall k :: 0 <= k < |t| ==> t[k].timestamp <= h.timestamp
    ensures Descending([h] + t)
  {
    var r := [h] + t;
    forall i, j | 0 <= i < j < |r| ensures r[i].timestamp >= r[j].timestamp {
      assert r[j] == t[j - 1];
      if i > 0 {
        assert r[i] == t[i - 1];
      }
    }
  }

  lemma {:induction false} InsertDescSorted(x: CheckpointInfo, s: seq<CheckpointInfo>)
    requires Descending(s)
    ensures Descending(InsertDesc(x, s))
  {
    if s == [] || s[0].timestamp <= x.timestamp {
      ConsDescending(x, s);
    } else {
      var tail := s[1..];
      assert Descending(tail) by {
        forall i, j | 0 <= i < j < |tail| ensures tail[i].timestamp >= tail[j].timestamp {
          assert tail[i] == s[i + 1] && tail[j] == s[j + 1];
        }
      }
      var rest := InsertDesc(x, tail);
      InsertDescSorted(x, tail);
      forall k | 0 <= k < |rest| ensures rest[k].timestamp <= s[0].timestamp {
        var e := rest[k];
        assert e in multiset(rest);
        if e != x {
          assert e in multiset(tail);
          var m :| 0 <= m < |tail| && tail[m] == e;
          assert s[m + 1] == e;
        }
      }
      ConsDescending(s[0], rest);
    }
  }

  /** `sorted(entries, key=timestamp, reverse=True)`. */
  function SortDesc(xs: seq<CheckpointInfo>): (r: seq<CheckpointInfo>)
    ensures |r| == |xs|
    ensures multiset(r) == multiset(xs)
    ensures Descending(r)
  {
    if xs == [] then []
    else
      var sorted := SortDesc(xs[1..]);
      var r := InsertDesc(xs[0], sorted);
      SortDescStep(xs, sorted, r);
      r
  }

  /** One step of `SortDesc`: inserting the first entry into the sorted rest. */
  lemma SortDescStep(xs: seq<CheckpointInfo>, sorted: seq<CheckpointInfo>, r: seq<CheckpointInfo>)
    requires xs != []
    requires multiset(sorted) == multiset(xs[1..]) && Descending(sorted)
    requires r == InsertDesc(xs[0], sorted)
    ensures multiset(r) == multiset(xs) && Descending(r)
  {
    InsertDescSorted(xs[0], sorted);
    assert xs == [xs[0]] + xs[1..];
  }

  /** Position of the first largest key. */
  function FirstMaxIndex(keys: seq<real>): (i: nat)
    requires keys != []
    ensures i < |keys|
    ensures forall j :: 0 <= j < |keys| ==> keys[j] <= keys[i]
    ensures forall j :: 0 <= j < i ==> keys[j] < keys[i]
  {
    if |keys| == 1 then 0
    else
      var k := FirstMaxIndex(keys[1..]);
      if keys[0] >= keys[1..][k] then 0 else k + 1
  }

  function Timestamps(xs: seq<CheckpointInfo>): (r: seq<real>)
    ensures |r| == |xs| && forall i :: 0 <= i < |xs| ==> r[i] == xs[i].timestamp as real
  {
    seq(|xs|, i requires 0 <= i < |xs| => xs[i].timestamp as real)
  }

  function Mtimes(files: map<string, CheckpointFile>, names: seq<string>): (r: seq<real>)
    requires forall n :: n in names ==> n in files
    ensures |r| == |names| && forall i :: 0 <= i < |names| ==> r[i] == files[names[i]].mtime
  {
    seq(|names|, i requires 0 <= i < |names| => files[names[i]].mtime)
  }

  /** The first index of the largest modification time is the first of
      the newest files. */
  lemma NewestFile(files: map<string, CheckpointFile>, matching: seq<string>, i: nat)
    requires forall n :: n in matching ==> n in files
    requires matching != [] && i == FirstMaxIndex(Mtimes(files, matching))
    ensures i < |matching|
    ensures forall j :: 0 <= j < |matching| ==> files[matching[j]].mtime <= files[matching[i]].mtime
    ensures forall j :: 0 <= j < i ==> files[matching[j]].mtime < files[matching[i]].mtime
  {
    var mtimes := Mtimes(files, matching);
    assert forall j :: 0 <= j < |matching| ==> mtimes[j] == files[matching[j]].mtime;
  }

  /** The head of the stable descending sort is the first-appended entry
      among those with the largest timestamp. */
  lemma {:induction false} SortedHeadIsFirstMax(xs: seq<CheckpointInfo>)
    requires xs != []
    ensures SortDesc(xs)[0] == xs[FirstMaxIndex(Timestamps(xs))]
  {
    if |xs| > 1 {
      var rest := xs[1..];
      SortedHeadIsFirstMax(rest);
      var ts := Timestamps(xs);
      assert ts[1..] == Timestamps(rest);
      SortDescHead(xs);
      FirstMaxStep(ts, xs[0].timestamp, SortDesc(rest)[0].timestamp);
    }
  }

  /** The first largest key of at least two keys is the first one,
      unless the first largest of the rest is larger. */
  lemma FirstMaxStep(ts: seq<real>, first: int, restMax: int)
    requires |ts| > 1 && ts[0] == first as real && ts[1..][FirstMaxIndex(ts[1..])] == restMax as real
    ensures FirstMaxIndex(ts) == if restMax <= first then 0 else FirstMaxIndex(ts[1..]) + 1
  {
  }

  /** The head of the sort of at least two entries is that of the rest,
      unless the first entry's timestamp is at least as large. */
  lemma SortDescHead(xs: seq<CheckpointInfo>)
    requires |xs| > 1
    ensures var h := SortDesc(xs[1..])[0];
      SortDesc(xs)[0] == if h.timestamp <= xs[0].timestamp then xs[0] else h
  {
    var s := SortDesc(xs[1..]);
    assert SortDesc(xs) == InsertDesc(xs[0], s);
  }

  // ------------------------------------------------------------ removal

  /** The files left after removing each listed name that is still present. */
  function RemoveNames(files: map<string, CheckpointFile>, names: seq<string>): (r: map<string, CheckpointFile>)
    ensures r == files - set n | n in names
  {
    if names == [] then files
    else
      var rest := RemoveNames(files - {names[0]}, names[1..]);
      assert (files - {names[0]}) - (set n | n in names[1..]) == files - (set n | n in names);
      rest
  }

  /** How many of the listed names exist when their turn comes: each
      existing file is counted once, however often it is listed. */
  function CountRemoved(files: map<string, CheckpointFile>, names: seq<string>): nat
  {
    if names == [] then 0
    else if names[0] in files then 1 + CountRemoved(files - {names[0]}, names[1..])
    else CountRemoved(files, names[1..])
  }

  lemma {:induction false} CountRemovedIsDistinctExisting(files: map<string, CheckpointFile>, names: seq<string>)
    ensures CountRemoved(files, names) == |files.Keys * set n | n in names|
  {
    if names != [] {
      var n0 := names[0];
      var restSet := set n | n in names[1..];
      assert (set n | n in names) == {n0} + restSet;
      IntersectCons(files.Keys, n0, restSet);
      if n0 in files {
        CountRemovedIsDistinctExisting(files - {n0}, names[1..]);
        assert (files - {n0}).Keys == files.Keys - {n0};
      } else {
        CountRemovedIsDistinctExisting(files, names[1..]);
      }
    }
  }

  lemma IntersectCons(keys: set<string>, n0: string, rest: set<string>)
    ensures n0 in keys ==> |keys * ({n0} + rest)| == 1 + |(keys - {n0}) * rest|
    ensures n0 !in keys ==> |keys * ({n0} + rest)| == |keys * rest|
  {
    if n0 in keys {
      assert keys * ({n0} + rest) == {n0} + ((keys - {n0}) * rest);
      assert {n0} !! ((keys - {n0}) * rest);
    } else {
      assert keys * ({n0} + rest) == keys * rest;
    }
  }

  function Filenames(cps: seq<CheckpointInfo>): (r: seq<string>)
    ensures |r| == |cps| && forall i :: 0 <= i < |cps| ==> r[i] == cps[i].filename
  {
    seq(|cps|, i requires 0 <= i < |cps| => cps[i].filename)
  }

  /** The batch index list, when the index exists and has one. */
  function IndexList(indexes: map<string, IndexFile>, batchId: string): Option<seq<CheckpointInfo>>
  {
    if batchId in indexes && indexes[batchId].Parsed? then indexes[batchId].checkpoints else None
  }

  /** The entries already recorded for a batch, as `save_checkpoint` reads
      them: an absent, unreadable or key-less index counts as empty. */
  function PriorEntries(indexes: map<string, IndexFile>, batchId: string): seq<CheckpointInfo>
  {
    var l := IndexList(indexes, batchId);
    if l.Some? then l.value else []
  }

  /** The scan entries for the matching files, in listing order. */
  function ScanEntries(directory: string, names: seq<string>): (r: seq<CheckpointInfo>)
    ensures forall e :: e in r ==>
      (e.Scanned? && e.filename in names && ParseCheckpointName(e.filename) == Some((e.batchId, e.timestamp)))
  {
    if names == [] then []
    else
      var rest := ScanEntries(directory, names[1..]);
      match ParseCheckpointName(names[0])
      case None => rest
      case Some(p) => [Scanned(names[0], PathStr(Join(directory, names[0])), p.0, p.1)] + rest
  }

  class CheckpointManager {
    var enabled: bool
    var directory: string
    var interval: real
    var lastCheckpointTime: real
    /** The checkpoint files of the directory, by file name. */
    var files: map<string, CheckpointFile>
    /** The index files of the directory, by batch id. */
    var indexes: map<string, IndexFile>

    /** `CheckpointManager(config)` over a directory that already holds
        `existingFiles` and `existingIndexes`. */
    constructor (config: CheckpointConfig, existingFiles: map<string, CheckpointFile>, existingIndexes: map<string, IndexFile>)
      ensures enabled == (config.enableCheckpoints.None? || config.enableCheckpoints.value)
      ensures directory == if config.checkpointDirectory.Some? then config.checkpointDirectory.value else "checkpoints"
      ensures interval == if config.intervalSeconds.Some? then config.intervalSeconds.value else 60.0
      ensures lastCheckpointTime == 0.0
      ensures files == existingFiles && indexes == existingIndexes
    {
      enabled := config.enableCheckpoints.None? || config.enableCheckpoints.value;
      directory := if config.checkpointDirectory.Some? then config.checkpointDirectory.value else "checkpoints";
      interval := if config.intervalSeconds.Some? then config.intervalSeconds.value else 60.0;
      lastCheckpointTime := 0.0;
      files := existingFiles;
      indexes := existingIndexes;
    }

    /** `should_create_checkpoint()` at time `now`. */
    predicate ShouldCreate(now: real)
      reads this
    {
      enabled && now - lastCheckpointTime >= interval
    }

    /** The names `Path(directory).glob(pattern)` yields, in listing order. */
    function Glob(listing: seq<string>, batchId: Option<string>): (r: seq<string>)
      reads this
      ensures forall n :: n in r ==> n in files && MatchesPattern(n, batchId)
    {
      if listing == [] then []
      else
        var rest := Glob(listing[1..], batchId);
        if listing[0] in files && MatchesPattern(listing[0], batchId) then [listing[0]] + rest else rest
    }

    /** `save_checkpoint(batch_id, state)`: the clock reads `now` when the
        file is named and `finished` when the save completes; `failure`
        says which write raises. A failed index write leaves the
        checkpoint file already written. */
    method Save(batchId: string, state: map<string, Value>, now: real, finished: real, failure: WriteFailure)
      returns (path: Option<string>)
      modifies this
      ensures enabled == old(enabled) && directory == old(directory) && interval == old(interval)
      ensures !old(enabled) || failure != NoFailure ==>
        path == None && indexes == old(indexes) && lastCheckpointTime == old(lastCheckpointTime)
      ensures !old(enabled) || failure == CheckpointWriteFails ==> files == old(files)
      ensures old(enabled) && failure != CheckpointWriteFails ==>
        var ts := Trunc(now);
        files == old(files)[CheckpointFilename(batchId, ts) := CheckpointFile(WithMetadata(state, batchId, ts), now)]
      ensures old(enabled) && failure == NoFailure ==>
        var ts := Trunc(now);
        var name := CheckpointFilename(batchId, ts);
        path == Some(Join(directory, name)) &&
        indexes == old(indexes)[batchId := Parsed(Some(
          PriorEntries(old(indexes), batchId) + [Indexed(name, ts, state.Keys + {"_metadata"})]))] &&
        lastCheckpointTime == finished
    {
      if !enabled || failure == CheckpointWriteFails {
        return None;
      }
      var ts := Trunc(now);
      var name := CheckpointFilename(batchId, ts);
      var saved := WithMetadata(state, batchId, ts);
      files := files[name := CheckpointFile(saved, now)];
      if failure == IndexWriteFails {
        return None;
      }
      var entries := PriorEntries(indexes, batchId);
      indexes := indexes[batchId := Parsed(Some(entries + [Indexed(name, ts, saved.Keys)]))];
      lastCheckpointTime := finished;
      path := Some(Join(directory, name));
    }

    /** The index route of `get_latest_checkpoint`: the head of the sorted
        index, when the index is readable, non-empty and that file exists. */
    function LatestFromIndex(batchId: string): (r: Option<string>)
      reads this
      ensures r.Some? ==>
        (IndexList(indexes, batchId).Some? && IndexList(indexes, batchId).value != [] &&
         var entries := IndexList(indexes, batchId).value;
         var latest := entries[FirstMaxIndex(Timestamps(entries))].filename;
         latest in files && r == Some(Join(directory, latest)))
      ensures r.None? && IndexList(indexes, batchId).Some? && IndexList(indexes, batchId).value != [] ==>
        IndexList(indexes, batchId).value[FirstMaxIndex(Timestamps(IndexList(indexes, batchId).value))].filename !in files
    {
      var l := IndexList(indexes, batchId);
      if l.Some? && l.value != [] then
        var latest := SortDesc(l.value)[0].filename;
        SortedHeadIsFirstMax(l.value);
        if latest in files then Some(Join(directory, latest)) else None
      else None
    }

    /** The fallback of `get_latest_checkpoint`: `max` by modification
        time over the matching files, the first of the newest on a tie. */
    function LatestByMtime(matching: seq<string>): (r: Option<string>)
      reads this
      requires forall n :: n in matching ==> n in files
      ensures r.None? <==> matching == []
      ensures r.Some? ==>
        (exists i :: 0 <= i < |matching| && r.value == PathStr(Join(directory, matching[i])) &&
          (forall j :: 0 <= j < |matching| ==> files[matching[j]].mtime <= files[matching[i]].mtime) &&
          (forall j :: 0 <= j < i ==> files[matching[j]].mtime < files[matching[i]].mtime))
    {
      if matching == [] then None
      else
        var i := FirstMaxIndex(Mtimes(files, matching));
        NewestFile(files, matching, i);
        var path := PathStr(Join(directory, matching[i]));
        assert 0 <= i < |matching| && path == PathStr(Join(directory, matching[i]));
        Some(path)
    }

    /** `get_latest_checkpoint(batch_id)`; `listing` is the order in which
        the directory lists its entries. */
    function GetLatest(batchId: string, listing: seq<string>): (r: Option<string>)
      reads this
      ensures !enabled ==> r == None
      ensures enabled && LatestFromIndex(batchId).Some? ==> r == LatestFromIndex(batchId)
      ensures enabled && LatestFromIndex(batchId).None? ==> r == LatestByMtime(Glob(listing, Some(batchId)))
    {
      if !enabled then None
      else
        var fromIndex := LatestFromIndex(batchId);
        if fromIndex.Some? then fromIndex else LatestByMtime(Glob(listing, Some(batchId)))
    }

    /** `list_checkpoints(batch_id)`: a truthy batch id with a readable
        index that has a list returns that list as stored (append order);
        otherwise the matching files are parsed and sorted newest first. */
    function ListCheckpoints(batchId: Option<string>, listing: seq<string>): (r: seq<CheckpointInfo>)
      reads this
      ensures !enabled ==> r == []
      ensures enabled && batchId.Some? && batchId.value != "" && IndexList(indexes, batchId.value).Some? ==>
        r == IndexList(indexes, batchId.value).value
      ensures enabled && !(batchId.Some? && batchId.value != "" && IndexList(indexes, batchId.value).Some?) ==>
        Descending(r) && multiset(r) == multiset(ScanEntries(directory, Glob(listing, batchId)))
    {
      if !enabled then []
      else if batchId.Some? && batchId.value != "" && IndexList(indexes, batchId.value).Some? then
        IndexList(indexes, batchId.value).value
      else SortDesc(ScanEntries(directory, Glob(listing, batchId)))
    }

    /** The deletion loop of `cleanup_old_checkpoints`: removes each listed
        file that still exists and counts the removals. */
    method DeleteFiles(doomed: seq<string>) returns (deleted: nat)
      modifies this
      ensures enabled == old(enabled) && directory == old(directory) && interval == old(interval)
      ensures lastCheckpointTime == old(lastCheckpointTime) && indexes == old(indexes)
      ensures files == old(files) - (set n | n in doomed)
      ensures deleted == |old(files).Keys * set n | n in doomed|
    {
      var i := 0;
      deleted := 0;
      while i < |doomed|
        invariant 0 <= i <= |doomed|
        invariant RemoveNames(files, doomed[i..]) == RemoveNames(old(files), doomed)
        invariant deleted + CountRemoved(files, doomed[i..]) == CountRemoved(old(files), doomed)
        invariant enabled == old(enabled) && directory == old(directory) && interval == old(interval)
        invariant lastCheckpointTime == old(lastCheckpointTime) && indexes == old(indexes)
      {
        var name := doomed[i];
        assert doomed[i..][1..] == doomed[i + 1..];
        if name in files {
          files := files - {name};
          deleted := deleted + 1;
        }
        i := i + 1;
      }
      CountRemovedIsDistinctExisting(old(files), doomed);
    }

    /** `cleanup_old_checkpoints(batch_id, keep_count)` as written: deletes
        the files of the listing's entries from position `keep_count` on
        (Python slicing), cuts the index to its first `keep_count` entries
        and returns how many files it removed. When the batch has an index
        the listing is in append order, so the oldest entries are kept. */
    method Cleanup(batchId: string, keepCount: int, listing: seq<string>) returns (deleted: nat)
      modifies this
      ensures enabled == old(enabled) && directory == old(directory) && interval == old(interval)
      ensures lastCheckpointTime == old(lastCheckpointTime)
      ensures !old(enabled) || |old(ListCheckpoints(Some(batchId), listing))| <= keepCount ==>
        deleted == 0 && files == old(files) && indexes == old(indexes)
      ensures old(enabled) && |old(ListCheckpoints(Some(batchId), listing))| > keepCount ==>
        var doomed := Filenames(SliceFrom(old(ListCheckpoints(Some(batchId), listing)), keepCount));
        files == old(files) - (set n | n in doomed) &&
        deleted == |old(files).Keys * set n | n in doomed| &&
        indexes == if IndexList(old(indexes), batchId).Some?
                   then old(indexes)[batchId := Parsed(Some(SliceTo(IndexList(old(indexes), batchId).value, keepCount)))]
                   else old(indexes)
    {
      if !enabled {
        return 0;
      }
      var checkpoints := ListCheckpoints(Some(batchId), listing);
      if |checkpoints| <= keepCount {
        return 0;
      }
      deleted := DeleteFiles(Filenames(SliceFrom(checkpoints, keepCount)));
      var l := IndexList(indexes, batchId);
      if l.Some? {
        indexes := indexes[batchId := Parsed(Some(SliceTo(l.value, keepCount)))];
      }
    }

    /** `cleanup_old_checkpoints` as its documentation describes it: the
        listing and the index are ordered newest first before they are cut,
        so the `keep_count` newest checkpoints survive. */
    method CleanupNewest(batchId: string, keepCount: int, listing: seq<string>) returns (deleted: nat)
      modifies this
      ensures enabled == old(enabled) && directory == old(directory) && interval == old(interval)
      ensures lastCheckpointTime == old(lastCheckpointTime)
      ensures !old(enabled) || |old(ListCheckpoints(Some(batchId), listing))| <= keepCount ==>
        deleted == 0 && files == old(files) && indexes == old(indexes)
      ensures old(enabled) && |old(ListCheckpoints(Some(batchId), listing))| > keepCount ==>
        var doomed := Filenames(SliceFrom(SortDesc(old(ListCheckpoints(Some(batchId), listing))), keepCount));
        files == old(files) - (set n | n in doomed) &&
        deleted == |old(files).Keys * set n | n in doomed| &&
        indexes == if IndexList(old(indexes), batchId).Some?
                   then old(indexes)[batchId := Parsed(Some(SliceTo(SortDesc(IndexList(old(indexes), batchId).value), keepCount)))]
                   else old(indexes)
    {
      if !enabled {
        return 0;
      }
      var checkpoints := SortDesc(ListCheckpoints(Some(batchId), listing));
      if |checkpoints| <= keepCount {
        return 0;
      }
      deleted := DeleteFiles(Filenames(SliceFrom(checkpoints, keepCount)));
      var l := IndexList(indexes, batchId);
      if l.Some? {
        indexes := indexes[batchId := Parsed(Some(SliceTo(SortDesc(l.value), keepCount)))];
      }
    }
  }

  /** After sorting newest first, every kept entry is at least as new as
      every dropped one, whatever `keep_count` is. */
  lemma SortedCutKeepsNewest(cps: seq<CheckpointInfo>, keepCount: int)
    ensures var sorted := SortDesc(cps);
      forall i, j :: 0 <= i < |SliceTo(sorted, keepCount)| && 0 <= j < |SliceFrom(sorted, keepCount)| ==>
        SliceTo(sorted, keepCount)[i].timestamp >= SliceFrom(sorted, keepCount)[j].timestamp
  {
    var sorted := SortDesc(cps);
    var k := SliceIndex(|sorted|, keepCount);
    forall i, j | 0 <= i < |SliceTo(sorted, keepCount)| && 0 <= j < |SliceFrom(sorted, keepCount)|
      ensures SliceTo(sorted, keepCount)[i].timestamp >= SliceFrom(sorted, keepCount)[j].timestamp
    {
      assert SliceTo(sorted, keepCount)[i] == sorted[i];
      assert SliceFrom(sorted, keepCount)[j] == sorted[k + j];
    }
  }

  /** The interval test, once true, stays true as time passes. */
  lemma ShouldCreateMonotone(m: CheckpointManager, t1: real, t2: real)
    requires t1 <= t2 && m.ShouldCreate(t1)
    ensures m.ShouldCreate(t2)
  {
  }

  /** Two saves within one second on a fresh manager write one file but
      record two index entries. */
  method SameSecondSaves() returns (fileCount: nat, indexLength: nat)
    ensures fileCount == 1 && indexLength == 2
  {
    var m := new CheckpointManager(CheckpointConfig(None, None, None), map[], map[]);
    var p1 := m.Save("batch1", map[], 100.2, 100.3, NoFailure);
    var p2 := m.Save("batch1", map[], 100.7, 100.8, NoFailure);
    assert Trunc(100.2) == 100 && Trunc(100.7) == 100;
    fileCount := |m.files|;
    indexLength := |PriorEntries(m.indexes, "batch1")|;
  }

  /** Sorting two entries newest first swaps them when the first is older. */
  lemma SortTwo(e1: CheckpointInfo, e2: CheckpointInfo)
    requires e1.timestamp < e2.timestamp
    ensures SortDesc([e1, e2]) == [e2, e1]
  {
    assert [e2][1..] == [];
    assert SortDesc([e2]) == [e2];
    assert [e1, e2][1..] == [e2];
  }

  /** Two saves a second apart on a fresh manager: two files, indexed in
      the order they were saved. */
  method SaveTwoSeconds() returns (m: CheckpointManager)
    ensures fresh(m) && m.enabled
    ensures m.files.Keys == {CheckpointFilename("b", 1), CheckpointFilename("b", 2)}
    ensures IndexList(m.indexes, "b") == Some([Indexed(CheckpointFilename("b", 1), 1, {"_metadata"}),
                                               Indexed(CheckpointFilename("b", 2), 2, {"_metadata"})])
  {
    m := new CheckpointManager(CheckpointConfig(None, None, None), map[], map[]);
    var e1 := Indexed(CheckpointFilename("b", 1), 1, {"_metadata"});
    var empty: map<string, Value> := map[];
    assert empty.Keys + {"_metadata"} == {"_metadata"};
    assert Trunc(1.0) == 1 && Trunc(2.0) == 2;
    var p1 := m.Save("b", empty, 1.0, 1.0, NoFailure);
    assert PriorEntries(m.indexes, "b") == [e1];
    label AfterFirst:
    var p2 := m.Save("b", empty, 2.0, 2.0, NoFailure);
    var e2 := Indexed(CheckpointFilename("b", 2), 2, {"_metadata"});
    assert PriorEntries(old@AfterFirst(m.indexes), "b") == [e1];
    assert IndexList(m.indexes, "b").value == [e1, e2];
  }

  /** Two saves a second apart, then a cleanup keeping one: the code as
      written deletes the newer file and keeps the older. */
  method CleanupKeepsOldest() returns (remaining: set<string>, deleted: nat)
    ensures remaining == {CheckpointFilename("b", 1)} && deleted == 1
  {
    var m := SaveTwoSeconds();
    var e1 := Indexed(CheckpointFilename("b", 1), 1, {"_metadata"});
    var e2 := Indexed(CheckpointFilename("b", 2), 2, {"_metadata"});
    FilenameSameSecond("b", 1, 2);
    assert m.ListCheckpoints(Some("b"), []) == [e1, e2];
    assert SliceFrom([e1, e2], 1) == [e2];
    assert Filenames([e2]) == [e2.filename];
    assert (set n | n in [e2.filename]) == {e2.filename};
    deleted := m.Cleanup("b", 1, []);
    remaining := m.files.Keys;
  }

  /** On the index of that scenario, the corrected cut drops the older
      entry. */
  lemma CorrectedCutDropsOlder(e1: CheckpointInfo, e2: CheckpointInfo)
    requires e1.timestamp < e2.timestamp
    ensures Filenames(SliceFrom(SortDesc([e1, e2]), 1)) == [e1.filename]
    ensures SliceTo(SortDesc([e1, e2]), 1) == [e2]
  {
    SortTwo(e1, e2);
    assert SliceFrom([e2, e1], 1) == [e1];
  }
}
