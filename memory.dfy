/** Model of src/utils/memory_utils.py: the low/critical flags derived from a
    memory reading, the decision to collect garbage, and the memory-adaptive
    batch generator. Readings are inputs: one critical flag per iteration of
    the generator's loop. */
module Memory {
  import opened Common

  /** The thresholds and default batch size a `MemoryOptimizer` reads from
      its configuration (defaults 80, 95 and 100). */
  datatype MemoryConfig = MemoryConfig(memoryThreshold: real, lowMemoryThreshold: real, batchSize: int)

  const DefaultMemoryConfig := MemoryConfig(80.0, 95.0, 100)

  /** What psutil reports, or a failure to read it. */
  datatype Reading =
    | Reading(processMb: real, systemPercent: real, availableMb: real, totalMb: real)
    | ReadFailure

  /** The dictionary `get_memory_usage` returns. */
  datatype MemoryUsage = MemoryUsage(
    processMb: real, systemPercent: real, availableMb: real, totalMb: real,
    isLowMemory: bool, isCriticalMemory: bool)

  /** `get_memory_usage()`: a failed reading gives zeros and no flags. */
  function GetMemoryUsage(cfg: MemoryConfig, reading: Reading): (u: MemoryUsage)
    ensures u.isLowMemory <==> reading.Reading? && reading.systemPercent > cfg.memoryThreshold
    ensures u.isCriticalMemory <==> reading.Reading? && reading.systemPercent > cfg.lowMemoryThreshold
    ensures reading.ReadFailure? ==> u == MemoryUsage(0.0, 0.0, 0.0, 0.0, false, false)
    ensures reading.Reading? ==> u.systemPercent == reading.systemPercent && u.processMb == reading.processMb
  {
    match reading
    case ReadFailure => MemoryUsage(0.0, 0.0, 0.0, 0.0, false, false)
    case Reading(p, s, a, t) =>
      MemoryUsage(p, s, a, t, s > cfg.memoryThreshold, s > cfg.lowMemoryThreshold)
  }

  /** With the default thresholds, a critical reading is also a low one. */
  lemma CriticalImpliesLow(reading: Reading)
    ensures GetMemoryUsage(DefaultMemoryConfig, reading).isCriticalMemory ==>
      GetMemoryUsage(DefaultMemoryConfig, reading).isLowMemory
  {
  }

  /** The result of `optimize_memory(force)`: the readings before and after,
      and whether `gc.collect()` ran. */
  datatype Optimization = Optimization(before: MemoryUsage, after: MemoryUsage, collected: bool)

  function OptimizeMemory(cfg: MemoryConfig, before: Reading, after: Reading, force: bool): (o: Optimization)
    ensures o.collected <==> force || GetMemoryUsage(cfg, before).isLowMemory
    ensures o.before == GetMemoryUsage(cfg, before) && o.after == GetMemoryUsage(cfg, after)
  {
    var b := GetMemoryUsage(cfg, before);
    Optimization(b, GetMemoryUsage(cfg, after), force || b.isLowMemory)
  }

  // ------------------------------------------------------------ batch_generator

  /** The calls the generator makes to `optimize_memory`. */
  datatype OptimizeCall = Forced | Plain

  /** The size the generator starts with: `batch_size or self.batch_size`. */
  function InitialSize(batchSize: Option<int>, cfg: MemoryConfig): int
  {
    if batchSize.None? || batchSize.value == 0 then cfg.batchSize else batchSize.value
  }

  /** Whether reading `k` is critical; readings beyond the supplied ones are
      not. */
  predicate Critical(critical: seq<bool>, k: nat)
  {
    k < |critical| && critical[k]
  }

  /** `max(10, batch_size // 2)`. */
  function Shrink(b: int): (r: int)
    requires b >= 1
    ensures r >= 10
    ensures b >= 10 ==> r <= b
    ensures b >= 20 ==> 2 * r <= b
  {
    Max(10, b / 2)
  }

  function NextSize(b: int, crit: bool): (r: int)
    requires b >= 1
  {
    if crit then Shrink(b) else b
  }

  /** The batch size in force when batch `k` is sliced. */
  function SizeAt(b0: int, critical: seq<bool>, k: nat): (r: int)
    requires b0 >= 1
    ensures r >= 1
    ensures b0 >= 10 ==> 10 <= r <= b0
    decreases k, 1
  {
    NextSize(SizeBefore(b0, critical, k), Critical(critical, k))
  }

  /** The batch size before reading `k`. */
  function SizeBefore(b0: int, critical: seq<bool>, k: nat): (r: int)
    requires b0 >= 1
    ensures r >= 1
    ensures b0 >= 10 ==> 10 <= r <= b0
    decreases k, 0
  {
    if k == 0 then b0 else SizeAt(b0, critical, k - 1)
  }

  /** Until a reading is critical the size stays the initial one. */
  lemma {:induction false} SizeWithoutCritical(b0: int, critical: seq<bool>, k: nat)
    requires b0 >= 1 && forall j :: 0 <= j <= k ==> !Critical(critical, j)
    ensures SizeBefore(b0, critical, k) == b0 && SizeAt(b0, critical, k) == b0
    decreases k
  {
    if k > 0 {
      SizeWithoutCritical(b0, critical, k - 1);
    }
    assert !Critical(critical, k);
  }

  /** The batches yielded from loop iteration `k` on, which starts at index
      `i`, as written: the start index advances by the initial size `b0`
      however the current size `b` has changed. */
  function Run<T>(items: seq<T>, b0: int, b: int, i: nat, k: nat, critical: seq<bool>): seq<seq<T>>
    requires b0 >= 1 && b >= 1
    decreases |items| - i
  {
    if i >= |items| then []
    else
      var size := NextSize(b, Critical(critical, k));
      [items[i..Min(i + size, |items|)]] + Run(items, b0, size, i + b0, k + 1, critical)
  }

  /** The `optimize_memory` calls made from loop iteration `k` on. */
  function RunCalls<T>(items: seq<T>, b0: int, b: int, i: nat, k: nat, critical: seq<bool>): seq<OptimizeCall>
    requires b0 >= 1 && b >= 1
    decreases |items| - i
  {
    if i >= |items| then []
    else
      var crit := Critical(critical, k);
      var size := NextSize(b, crit);
      (if crit then [Forced] else []) + (if i + size < |items| then [Plain] else [])
        + RunCalls(items, b0, size, i + b0, k + 1, critical)
  }

  /** The batches of `batch_generator` for a positive initial size. */
  function Batches<T>(items: seq<T>, b0: int, critical: seq<bool>): seq<seq<T>>
    requires b0 >= 1
  {
    Run(items, b0, b0, 0, 0, critical)
  }

  /** What `list(batch_generator(items, batch_size))` yields, as written;
      `range` with a zero step raises and a negative step is empty. */
  function Generate<T>(items: seq<T>, batchSize: Option<int>, cfg: MemoryConfig, critical: seq<bool>): Result<seq<seq<T>>>
  {
    var b0 := InitialSize(batchSize, cfg);
    if b0 == 0 then Err("range() arg 3 must not be zero")
    else if b0 < 0 then Ok([])
    else Ok(Batches(items, b0, critical))
  }

  function GenerateCalls<T>(items: seq<T>, batchSize: Option<int>, cfg: MemoryConfig, critical: seq<bool>): seq<OptimizeCall>
  {
    var b0 := InitialSize(batchSize, cfg);
    if b0 <= 0 then [] else RunCalls(items, b0, b0, 0, 0, critical)
  }

  /** `batch_generator(items, batch_size)` driven to exhaustion, as written:
      the yielded batches and the `optimize_memory` calls in order. */
  method BatchGenerator<T>(items: seq<T>, batchSize: Option<int>, cfg: MemoryConfig, critical: seq<bool>)
    returns (r: Result<seq<seq<T>>>, calls: seq<OptimizeCall>)
    ensures r == Generate(items, batchSize, cfg, critical)
    ensures calls == GenerateCalls(items, batchSize, cfg, critical)
  {
    var b0 := InitialSize(batchSize, cfg);
    if b0 == 0 {
      r, calls := Err("range() arg 3 must not be zero"), [];
    } else if b0 < 0 {
      r, calls := Ok([]), [];
    } else {
      var batches;
      batches, calls := SliceLoop(items, b0, critical);
      r := Ok(batches);
    }
  }

  /** The loop of `batch_generator` for a positive initial size `b0`. */
  method SliceLoop<T>(items: seq<T>, b0: int, critical: seq<bool>)
    returns (batches: seq<seq<T>>, calls: seq<OptimizeCall>)
    requires b0 >= 1
    ensures batches == Batches(items, b0, critical)
    ensures calls == RunCalls(items, b0, b0, 0, 0, critical)
  {
    var n := |items|;
    var b := b0;
    var i: nat := 0;
    var k: nat := 0;
    batches, calls := [], [];
    while i < n
      invariant b >= 1
      invariant batches + Run(items, b0, b, i, k, critical) == Batches(items, b0, critical)
      invariant calls + RunCalls(items, b0, b, i, k, critical) == RunCalls(items, b0, b0, 0, 0, critical)
      decreases n - i
    {
      ghost var b1 := b;
      var crit := k < |critical| && critical[k];
      assert crit == Critical(critical, k);
      var step: seq<OptimizeCall> := [];
      if crit {
        b := Max(10, b / 2);
        step := [Forced];
      }
      var end := Min(i + b, n);
      if i + b < n {
        step := step + [Plain];
      }
      RunStep(items, b0, b1, i, k, critical);
      assert step == (if crit then [Forced] else []) + (if i + b < n then [Plain] else []);
      AppendAssoc(batches, [items[i..end]], Run(items, b0, b, i + b0, k + 1, critical));
      AppendAssoc(calls, step, RunCalls(items, b0, b, i + b0, k + 1, critical));
      batches := batches + [items[i..end]];
      calls := calls + step;
      i := i + b0;
      k := k + 1;
    }
    assert batches + [] == batches && calls + [] == calls;
  }

  lemma AppendAssoc<X>(a: seq<X>, b: seq<X>, c: seq<X>)
    ensures a + (b + c) == (a + b) + c
  {
  }

  /** One iteration of the loop: the batch at `i` with the size in force,
      then the rest of the run. */
  lemma RunStep<T>(items: seq<T>, b0: int, b: int, i: nat, k: nat, critical: seq<bool>)
    requires b0 >= 1 && b >= 1 && i < |items|
    ensures var size := NextSize(b, Critical(critical, k));
      Run(items, b0, b, i, k, critical) ==
        [items[i..Min(i + size, |items|)]] + Run(items, b0, size, i + b0, k + 1, critical) &&
      RunCalls(items, b0, b, i, k, critical) ==
        (if Critical(critical, k) then [Forced] else []) + (if i + size < |items| then [Plain] else [])
          + RunCalls(items, b0, size, i + b0, k + 1, critical)
  {
  }

  /** The start index of loop iteration `j` counted from index `i`:
      `i + j * b0`, written as repeated steps of `b0`. */
  function StartOf(i: int, j: nat, b0: int): int
    decreases j
  {
    if j == 0 then i else StartOf(i + b0, j - 1, b0)
  }

  lemma {:induction false} StartOfIsProduct(i: int, j: nat, b0: int)
    ensures StartOf(i, j, b0) == i + j * b0
    decreases j
  {
    if j > 0 {
      StartOfIsProduct(i + b0, j - 1, b0);
      assert (j - 1) * b0 == j * b0 - b0;
    }
  }

  /** Batch `j` of the run from iteration `k` at index `i` starts at
      `i + j * b0` and is as long as the size in force then allows. */
  lemma {:induction false} RunAt<T>(items: seq<T>, b0: int, b: int, i: nat, k: nat, critical: seq<bool>, j: nat)
    requires b0 >= 1 && b == SizeBefore(b0, critical, k)
    requires j < |Run(items, b0, b, i, k, critical)|
    ensures SliceAt(items, Run(items, b0, b, i, k, critical)[j], StartOf(i, j, b0), SizeAt(b0, critical, k + j))
    decreases j
  {
    var size := SizeAt(b0, critical, k);
    assert size == NextSize(b, Critical(critical, k));
    var run := Run(items, b0, b, i, k, critical);
    var rest := Run(items, b0, size, i + b0, k + 1, critical);
    assert run == [items[i..Min(i + size, |items|)]] + rest;
    if j == 0 {
      assert StartOf(i, j, b0) == i && k + j == k;
      assert SliceAt(items, run[0], i, size);
    } else {
      assert SizeBefore(b0, critical, k + 1) == size;
      RunAt(items, b0, size, i + b0, k + 1, critical, j - 1);
      RunAtShift(items, run, rest, StartOf(i + b0, j - 1, b0), SizeAt(b0, critical, k + 1 + (j - 1)), j);
      assert StartOf(i, j, b0) == StartOf(i + b0, j - 1, b0);
      assert k + 1 + (j - 1) == k + j;
    }
  }

  lemma RunAtShift<T>(items: seq<T>, run: seq<seq<T>>, rest: seq<seq<T>>, start: int, size: int, j: nat)
    requires 0 < j < |run| && run == [run[0]] + rest
    requires SliceAt(items, rest[j - 1], start, size)
    ensures SliceAt(items, run[j], start, size)
  {
    assert run[j] == rest[j - 1];
  }

  lemma {:induction false} RunLength<T>(items: seq<T>, b0: int, b: int, i: nat, k: nat, critical: seq<bool>)
    requires b0 >= 1 && b >= 1
    ensures |Run(items, b0, b, i, k, critical)| == RangeLen(|items| - i, b0)
    decreases |items| - i
  {
    if i < |items| {
      RunLength(items, b0, NextSize(b, Critical(critical, k)), i + b0, k + 1, critical);
    }
  }

  /** Batch `k` where the size in force is `size`. */
  ghost predicate SliceAt<T>(items: seq<T>, batch: seq<T>, start: int, size: int)
  {
    0 <= start < |items| && size >= 1 && batch == items[start..Min(start + size, |items|)]
  }

  /** The yielded batches, in terms of the start indices 0, b0, 2·b0, … of
      `range(0, len(items), b0)` and the size in force at each: there are
      ceil(n / b0) of them and batch k is `items[k*b0 : min(k*b0 + b_k, n)]`. */
  lemma BatchesShape<T>(items: seq<T>, b0: int, critical: seq<bool>)
    requires b0 >= 1
    ensures |Batches(items, b0, critical)| == RangeLen(|items|, b0)
    ensures forall k :: 0 <= k < |Batches(items, b0, critical)| ==>
      SliceAt(items, Batches(items, b0, critical)[k], k * b0, SizeAt(b0, critical, k))
  {
    RunLength(items, b0, b0, 0, 0, critical);
    forall k | 0 <= k < |Batches(items, b0, critical)|
      ensures SliceAt(items, Batches(items, b0, critical)[k], k * b0, SizeAt(b0, critical, k))
    {
      BatchAt(items, b0, critical, k);
    }
  }

  lemma BatchAt<T>(items: seq<T>, b0: int, critical: seq<bool>, k: nat)
    requires b0 >= 1 && k < |Batches(items, b0, critical)|
    ensures SliceAt(items, Batches(items, b0, critical)[k], k * b0, SizeAt(b0, critical, k))
  {
    assert SizeBefore(b0, critical, 0) == b0;
    RunAt(items, b0, b0, 0, 0, critical, k);
    StartOfIsProduct(0, k, b0);
    assert 0 + k == k && 0 + k * b0 == k * b0;
  }

  /** With an initial size of at least 10 every batch is a non-empty slice
      no longer than b0 starting at k·b0, so batches are disjoint and in
      increasing index order (items may fall between them). */
  lemma BatchesOrdered<T>(items: seq<T>, b0: int, critical: seq<bool>)
    requires b0 >= 10
    ensures forall k :: 0 <= k < |Batches(items, b0, critical)| ==>
      1 <= |Batches(items, b0, critical)[k]| <= b0 &&
      k * b0 + |Batches(items, b0, critical)[k]| <= |items| &&
      Batches(items, b0, critical)[k] == items[k * b0..k * b0 + |Batches(items, b0, critical)[k]|]
  {
    BatchesShape(items, b0, critical);
    forall k | 0 <= k < |Batches(items, b0, critical)|
      ensures 1 <= |Batches(items, b0, critical)[k]| <= b0
      ensures k * b0 + |Batches(items, b0, critical)[k]| <= |items|
      ensures Batches(items, b0, critical)[k] == items[k * b0..k * b0 + |Batches(items, b0, critical)[k]|]
    {
      assert SliceAt(items, Batches(items, b0, critical)[k], k * b0, SizeAt(b0, critical, k));
    }
  }

  lemma {:induction false} RunCoversWithoutCritical<T>(items: seq<T>, b0: int, i: nat, k: nat, critical: seq<bool>)
    requires b0 >= 1 && true !in critical && i <= |items|
    ensures Flatten(Run(items, b0, b0, i, k, critical)) == items[i..]
    decreases |items| - i
  {
    if i < |items| {
      assert !Critical(critical, k);
      var end := Min(i + b0, |items|);
      if i + b0 <= |items| {
        RunCoversWithoutCritical(items, b0, i + b0, k + 1, critical);
        assert items[i..end] + items[end..] == items[i..];
      } else {
        assert items[i..end] == items[i..];
      }
    }
  }

  /** With no critical reading the batches concatenate to the items. */
  lemma NoCriticalCovers<T>(items: seq<T>, b0: int, critical: seq<bool>)
    requires b0 >= 1 && true !in critical
    ensures Flatten(Batches(items, b0, critical)) == items
  {
    RunCoversWithoutCritical(items, b0, 0, 0, critical);
  }

  /** The first reading is critical: the size drops from 100 to 50 but the
      next batch still starts at 100, so items 50..99 and 150..199 of 200
      are never yielded. */
  lemma SkipsAfterShrink()
    ensures var items := seq(200, i => i);
      Batches(items, 100, [true]) == [items[0..50], items[100..150]] &&
      Flatten(Batches(items, 100, [true])) != items
  {
    var items := seq(200, i => i);
    var r := Batches(items, 100, [true]);
    assert Run(items, 100, 50, 200, 2, [true]) == [];
    assert Run(items, 100, 50, 100, 1, [true]) == [items[100..150]];
    assert r == [items[0..50], items[100..150]];
    assert Flatten(r[1..]) == items[100..150] + Flatten(r[2..]);
    assert |Flatten(r)| == 100;
  }

  // ------------------------------------------------------ corrected generator

  /** The generator as evidently intended: each batch starts where the
      previous one ended. */
  function RunFixed<T>(items: seq<T>, b: int, i: nat, k: nat, critical: seq<bool>): (r: seq<seq<T>>)
    requires b >= 1 && i <= |items|
    ensures Flatten(r) == items[i..]
    ensures forall j :: 0 <= j < |r| ==> |r[j]| >= 1
    decreases |items| - i
  {
    if i == |items| then []
    else
      var size := NextSize(b, Critical(critical, k));
      var end := Min(i + size, |items|);
      assert items[i..end] + items[end..] == items[i..];
      [items[i..end]] + RunFixed(items, size, end, k + 1, critical)
  }

  /** The corrected generator: a positive size yields every item exactly
      once, in order. */
  function GenerateFixed<T>(items: seq<T>, batchSize: Option<int>, cfg: MemoryConfig, critical: seq<bool>): (r: Result<seq<seq<T>>>)
    ensures r.Ok? <==> InitialSize(batchSize, cfg) != 0
    ensures r.Ok? && InitialSize(batchSize, cfg) > 0 ==> Flatten(r.value) == items
  {
    var b0 := InitialSize(batchSize, cfg);
    if b0 == 0 then Err("range() arg 3 must not be zero")
    else if b0 < 0 then Ok([])
    else Ok(RunFixed(items, b0, 0, 0, critical))
  }

  lemma {:induction false} FixedAgreesFrom<T>(items: seq<T>, b0: int, i: nat, k: nat, critical: seq<bool>)
    requires b0 >= 1 && true !in critical && i <= |items|
    ensures RunFixed(items, b0, i, k, critical) == Run(items, b0, b0, i, k, critical)
    decreases |items| - i
  {
    if i < |items| {
      assert !Critical(critical, k);
      if i + b0 <= |items| {
        FixedAgreesFrom(items, b0, i + b0, k + 1, critical);
      }
    }
  }

  /** With no critical reading the corrected generator yields what the
      original does. */
  lemma FixedAgreesWithoutCritical<T>(items: seq<T>, batchSize: Option<int>, cfg: MemoryConfig, critical: seq<bool>)
    requires true !in critical
    ensures GenerateFixed(items, batchSize, cfg, critical) == Generate(items, batchSize, cfg, critical)
  {
    var b0 := InitialSize(batchSize, cfg);
    if b0 > 0 {
      FixedAgreesFrom(items, b0, 0, 0, critical);
    }
  }
}
