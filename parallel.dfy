/** Model of src/utils/parallel_utils.py: `ParallelProcessor`'s sequential
    dispatch, the order in which its parallel paths return results, chunking
    for `process_batches`, and its setters. A task is a function returning
    its value or the exception it raises; the order in which pooled futures
    complete is an input. */
module Parallel {
  import opened Common

  /** Applying `f` to each item in order: the list of values, or the first
      exception raised (which ends the iteration). */
  function MapResults<T, R>(f: T -> Result<R>, xs: seq<T>): (r: Result<seq<R>>)
    ensures r.Ok? ==> |r.value| == |xs|
  {
    if xs == [] then Ok([])
    else
      match f(xs[0])
      case Err(e) => Err(e)
      case Ok(v) => Prepend([v], MapResults(f, xs[1..]))
  }

  /** The iteration succeeds iff every task does, and then holds each
      task's value at its position. */
  lemma {:induction false} MapResultsOk<T, R>(f: T -> Result<R>, xs: seq<T>)
    ensures MapResults(f, xs).Ok? <==> forall i :: 0 <= i < |xs| ==> f(xs[i]).Ok?
    ensures MapResults(f, xs).Ok? ==> forall i :: 0 <= i < |xs| ==> f(xs[i]) == Ok(MapResults(f, xs).value[i])
  {
    if xs != [] {
      MapResultsOk(f, xs[1..]);
      assert forall i :: 1 <= i < |xs| ==> xs[i] == xs[1..][i - 1];
    }
  }

  /** A failed iteration reports the exception of the first failing task. */
  lemma {:induction false} MapResultsErr<T, R>(f: T -> Result<R>, xs: seq<T>)
    requires MapResults(f, xs).Err?
    ensures exists i :: 0 <= i < |xs| && f(xs[i]) == Err(MapResults(f, xs).error) && FirstFailure(f, xs, i)
  {
    if f(xs[0]).Ok? {
      MapResultsErr(f, xs[1..]);
      var i :| 0 <= i < |xs[1..]| && f(xs[1..][i]) == Err(MapResults(f, xs[1..]).error) && FirstFailure(f, xs[1..], i);
      assert f(xs[i + 1]) == Err(MapResults(f, xs).error);
      assert FirstFailure(f, xs, i + 1);
    } else {
      assert FirstFailure(f, xs, 0);
    }
  }

  /** Every task before position `i` succeeds. */
  ghost predicate FirstFailure<T, R>(f: T -> Result<R>, xs: seq<T>, i: int)
    requires 0 <= i <= |xs|
  {
    forall j :: 0 <= j < i ==> f(xs[j]).Ok?
  }

  /** The values produced before the first exception: what a callback sees. */
  function OkPrefix<T, R>(f: T -> Result<R>, xs: seq<T>): (r: seq<R>)
    ensures |r| <= |xs|
    ensures forall i :: 0 <= i < |r| ==> f(xs[i]) == Ok(r[i])
    ensures |r| < |xs| ==> f(xs[|r|]).Err?
  {
    if xs == [] then []
    else
      match f(xs[0])
      case Err(_) => []
      case Ok(v) => [v] + OkPrefix(f, xs[1..])
  }

  /** When every task succeeds, the callback sees every result, in order. */
  lemma {:induction false} OkPrefixAll<T, R>(f: T -> Result<R>, xs: seq<T>)
    requires MapResults(f, xs).Ok?
    ensures OkPrefix(f, xs) == MapResults(f, xs).value
  {
    if xs != [] {
      OkPrefixAll(f, xs[1..]);
    }
  }

  /** `acc` followed by the outcome of the rest of an iteration. */
  function Prepend<R>(acc: seq<R>, rest: Result<seq<R>>): Result<seq<R>>
  {
    match rest
    case Ok(v) => Ok(acc + v)
    case Err(e) => Err(e)
  }

  lemma PrependNil<R>(r: Result<seq<R>>)
    ensures Prepend([], r) == r
  {
    match r
    case Ok(v) => assert [] + v == v;
    case Err(_) =>
  }

  lemma PrependAppend<R>(acc: seq<R>, v: R, r: Result<seq<R>>)
    ensures Prepend(acc, Prepend([v], r)) == Prepend(acc + [v], r)
  {
    match r
    case Ok(w) => assert acc + ([v] + w) == (acc + [v]) + w;
    case Err(_) =>
  }

  // ------------------------------------------------------------ permutations

  function Range(n: nat): seq<nat>
  {
    seq(n, i => i)
  }

  /** `order` lists each of 0, …, n-1 exactly once. */
  ghost predicate IsPermutation(order: seq<nat>, n: nat)
  {
    multiset(order) == multiset(Range(n))
  }

  lemma PermutationBounded(order: seq<nat>, n: nat)
    requires IsPermutation(order, n)
    ensures forall j :: 0 <= j < |order| ==> order[j] < n
  {
    forall j | 0 <= j < |order|
      ensures order[j] < n
    {
      assert order[j] in multiset(order);
      assert order[j] in Range(n);
    }
  }

  /** The items visited in the order `order` gives. */
  function Permute<T>(xs: seq<T>, order: seq<nat>): (r: seq<T>)
    requires forall j :: 0 <= j < |order| ==> order[j] < |xs|
    ensures |r| == |order| && forall j :: 0 <= j < |order| ==> r[j] == xs[order[j]]
  {
    seq(|order|, j requires 0 <= j < |order| => xs[order[j]])
  }

  lemma PermuteSplit<T>(xs: seq<T>, a: seq<nat>, b: seq<nat>)
    requires forall j :: 0 <= j < |a + b| ==> (a + b)[j] < |xs|
    ensures forall j :: 0 <= j < |a| ==> a[j] < |xs|
    ensures forall j :: 0 <= j < |b| ==> b[j] < |xs|
    ensures Permute(xs, a + b) == Permute(xs, a) + Permute(xs, b)
  {
    assert forall j :: 0 <= j < |a| ==> a[j] == (a + b)[j];
    assert forall j :: 0 <= j < |b| ==> b[j] == (a + b)[|a| + j];
  }

  lemma PermuteDropLast<T>(xs: seq<T>, order: seq<nat>)
    requires xs != [] && forall j :: 0 <= j < |order| ==> order[j] < |xs| - 1
    ensures Permute(xs, order) == Permute(xs[..|xs| - 1], order)
  {
  }

  lemma InRange(k: nat, n: nat)
    requires k < n
    ensures k in multiset(Range(n))
  {
    assert Range(n)[k] == k;
  }

  /** Removing the entry `n - 1` from a permutation of 0..n-1 leaves a
      permutation of 0..n-2. */
  lemma RemoveLastIndex(order: seq<nat>, n: nat, p: nat)
    requires n >= 1 && IsPermutation(order, n) && p < |order| && order[p] == n - 1
    ensures IsPermutation(order[..p] + order[p + 1..], n - 1)
  {
    var rest := order[..p] + order[p + 1..];
    assert order == order[..p] + [n - 1] + order[p + 1..];
    assert multiset(order) == multiset(order[..p]) + multiset{n - 1} + multiset(order[p + 1..]);
    assert multiset(rest) == multiset(order[..p]) + multiset(order[p + 1..]);
    assert Range(n) == Range(n - 1) + [n - 1];
    assert multiset(Range(n)) == multiset(Range(n - 1)) + multiset{(n - 1) as nat};
    assert multiset(rest) == multiset(order) - multiset{(n - 1) as nat};
    assert multiset(Range(n - 1)) == multiset(Range(n)) - multiset{(n - 1) as nat};
  }

  lemma PermuteAround<T>(xs: seq<T>, order: seq<nat>, p: nat, rest: seq<nat>)
    requires xs != [] && p < |order| && order[p] == |xs| - 1
    requires forall j :: 0 <= j < |order| ==> order[j] < |xs|
    requires rest == order[..p] + order[p + 1..]
    requires forall j :: 0 <= j < |rest| ==> rest[j] < |xs| - 1
    ensures multiset(Permute(xs, order)) == multiset(Permute(xs[..|xs| - 1], rest)) + multiset{xs[|xs| - 1]}
  {
    assert order == order[..p] + [order[p]] + order[p + 1..];
    PermuteSplit(xs, order[..p] + [order[p]], order[p + 1..]);
    PermuteSplit(xs, order[..p], [order[p]]);
    PermuteSplit(xs, order[..p], order[p + 1..]);
    PermuteDropLast(xs, rest);
  }

  lemma {:induction false} PermutePreservesMultiset<T>(xs: seq<T>, order: seq<nat>)
    requires IsPermutation(order, |xs|)
    ensures forall j :: 0 <= j < |order| ==> order[j] < |xs|
    ensures multiset(Permute(xs, order)) == multiset(xs)
    decreases |xs|
  {
    PermutationBounded(order, |xs|);
    if xs != [] {
      var last := |xs| - 1;
      InRange(last, |xs|);
      var p :| 0 <= p < |order| && order[p] == last;
      var rest := order[..p] + order[p + 1..];
      RemoveLastIndex(order, |xs|, p);
      PermutationBounded(rest, last);
      PermutePreservesMultiset(xs[..last], rest);
      PermuteAround(xs, order, p, rest);
      MultisetLast(xs);
    }
  }

  lemma MultisetLast<T>(xs: seq<T>)
    requires xs != []
    ensures multiset(xs) == multiset(xs[..|xs| - 1]) + multiset{xs[|xs| - 1]}
  {
    assert xs == xs[..|xs| - 1] + [xs[|xs| - 1]];
  }

  lemma AllIndicesOccur(order: seq<nat>, n: nat)
    requires IsPermutation(order, n)
    ensures forall k :: 0 <= k < n ==> k in order
  {
    forall k | 0 <= k < n
      ensures k in order
    {
      InRange(k, n);
      assert k in multiset(order);
    }
  }

  lemma ValuesPermute<T, R>(f: T -> Result<R>, xs: seq<T>, order: seq<nat>)
    requires forall j :: 0 <= j < |order| ==> order[j] < |xs|
    requires MapResults(f, xs).Ok? && MapResults(f, Permute(xs, order)).Ok?
    ensures forall j :: 0 <= j < |order| ==> order[j] < |MapResults(f, xs).value|
    ensures MapResults(f, Permute(xs, order)).value == Permute(MapResults(f, xs).value, order)
  {
    MapResultsOk(f, xs);
    MapResultsOk(f, Permute(xs, order));
  }

  /** Tasks run in a completion order succeed iff they succeed in input
      order, and then yield the same results up to order. */
  lemma PermutedResults<T, R>(f: T -> Result<R>, xs: seq<T>, order: seq<nat>)
    requires IsPermutation(order, |xs|)
    ensures forall j :: 0 <= j < |order| ==> order[j] < |xs|
    ensures MapResults(f, Permute(xs, order)).Ok? <==> MapResults(f, xs).Ok?
    ensures MapResults(f, xs).Ok? ==>
      multiset(MapResults(f, Permute(xs, order)).value) == multiset(MapResults(f, xs).value)
  {
    PermutationBounded(order, |xs|);
    var ys := Permute(xs, order);
    AllIndicesOccur(order, |xs|);
    MapResultsOk(f, xs);
    MapResultsOk(f, ys);
    if (forall j :: 0 <= j < |ys| ==> f(ys[j]).Ok?) {
      forall k | 0 <= k < |xs|
        ensures f(xs[k]).Ok?
      {
        assert k in order;
        var j :| 0 <= j < |order| && order[j] == k;
        assert ys[j] == xs[k];
      }
    }
    if MapResults(f, xs).Ok? {
      ValuesPermute(f, xs, order);
      PermutePreservesMultiset(MapResults(f, xs).value, order);
    }
  }

  // ----------------------------------------------------------------- chunks

  /** `[items[i:i + batch_size] for i in range(0, len(items), batch_size)]`
      for a positive size. */
  function ChunksFrom<T>(items: seq<T>, size: int): (r: seq<seq<T>>)
    requires size >= 1
    ensures Flatten(r) == items
    ensures |r| == RangeLen(|items|, size)
    ensures forall j :: 0 <= j < |r| ==> 1 <= |r[j]| <= size
    ensures forall j :: 0 <= j < |r| - 1 ==> |r[j]| == size
    decreases |items|
  {
    if items == [] then []
    else if |items| <= size then [items]
    else
      assert items == items[..size] + items[size..];
      [items[..size]] + ChunksFrom(items[size..], size)
  }

  /** The chunking of `process_batches`: `range` raises on a zero step and
      is empty for a negative one. */
  function Chunks<T>(items: seq<T>, size: int): (r: Result<seq<seq<T>>>)
    ensures r.Err? <==> size == 0
    ensures size > 0 ==> r == Ok(ChunksFrom(items, size))
    ensures size < 0 ==> r == Ok([])
  {
    if size == 0 then Err("range() arg 3 must not be zero")
    else if size < 0 then Ok([])
    else Ok(ChunksFrom(items, size))
  }

  /** `map_function(func, items)`: empty input gives []; otherwise both the
      sequential comprehension and `executor.map` give the in-order map. */
  function MapFunction<T, R>(f: T -> Result<R>, items: seq<T>): (r: Result<seq<R>>)
    ensures items == [] ==> r == Ok([])
    ensures r.Ok? ==> |r.value| == |items| && forall i :: 0 <= i < |items| ==> f(items[i]) == Ok(r.value[i])
    ensures r.Ok? <==> forall i :: 0 <= i < |items| ==> f(items[i]).Ok?
  {
    MapResultsOk(f, items);
    if items == [] then Ok([]) else MapResults(f, items)
  }

  /** `run_in_parallel(functions_with_args)`: each task's outcome, in the
      order of the task list, whether run sequentially or collected from
      futures; a task that raises makes the call raise. */
  function RunInParallel<Task, R>(run: Task -> Result<R>, tasks: seq<Task>): (r: Result<seq<R>>)
    ensures r.Ok? ==> |r.value| == |tasks| && forall i :: 0 <= i < |tasks| ==> run(tasks[i]) == Ok(r.value[i])
    ensures r.Ok? <==> forall i :: 0 <= i < |tasks| ==> run(tasks[i]).Ok?
  {
    MapResultsOk(run, tasks);
    MapResults(run, tasks)
  }

  /** The settings a `ParallelProcessor` reads from its configuration; an
      absent entry takes the default. */
  datatype ParallelConfig = ParallelConfig(
    parallelProcessing: Option<bool>, maxWorkers: Option<int>,
    useProcesses: Option<bool>, chunkSize: Option<int>)

  /** A turn of the sequential loop whose task fails ends the iteration
      with that error. */
  lemma InOrderFails<T, R>(xs: seq<T>, f: T -> Result<R>, i: nat, acc: seq<R>)
    requires i < |xs| && f(xs[i]).Err?
    requires MapResults(f, xs) == Prepend(acc, MapResults(f, xs[i..]))
    requires OkPrefix(f, xs) == acc + OkPrefix(f, xs[i..])
    ensures MapResults(f, xs) == Err(f(xs[i]).error) && OkPrefix(f, xs) == acc
  {
    var rest := xs[i..];
    assert rest[0] == xs[i];
    assert MapResults(f, rest) == Err(f(xs[i]).error);
    assert OkPrefix(f, rest) == [];
    assert acc + [] == acc;
  }

  /** A turn of the sequential loop whose task succeeds moves on with the
      value appended. */
  lemma InOrderContinues<T, R>(xs: seq<T>, f: T -> Result<R>, i: nat, acc: seq<R>, v: R)
    requires i < |xs| && f(xs[i]) == Ok(v)
    requires MapResults(f, xs) == Prepend(acc, MapResults(f, xs[i..]))
    requires OkPrefix(f, xs) == acc + OkPrefix(f, xs[i..])
    ensures MapResults(f, xs) == Prepend(acc + [v], MapResults(f, xs[i + 1..]))
    ensures OkPrefix(f, xs) == (acc + [v]) + OkPrefix(f, xs[i + 1..])
  {
    var rest := xs[i..];
    assert rest[0] == xs[i] && rest[1..] == xs[i + 1..];
    assert MapResults(f, rest) == Prepend([v], MapResults(f, xs[i + 1..]));
    assert OkPrefix(f, rest) == [v] + OkPrefix(f, xs[i + 1..]);
    PrependAppend(acc, v, MapResults(f, xs[i + 1..]));
    assert acc + ([v] + OkPrefix(f, xs[i + 1..])) == (acc + [v]) + OkPrefix(f, xs[i + 1..]);
  }

  /** The loop of the sequential path: each result in turn, passed to the
      callback when there is one. */
  method RunInOrder<T, R>(xs: seq<T>, f: T -> Result<R>, withCallback: bool)
    returns (results: Result<seq<R>>, callbacks: seq<R>)
    ensures results == MapResults(f, xs)
    ensures callbacks == if withCallback then OkPrefix(f, xs) else []
  {
    var acc: seq<R> := [];
    callbacks := [];
    var i := 0;
    assert xs[i..] == xs;
    PrependNil(MapResults(f, xs));
    while i < |xs|
      invariant 0 <= i <= |xs|
      invariant MapResults(f, xs) == Prepend(acc, MapResults(f, xs[i..]))
      invariant OkPrefix(f, xs) == acc + OkPrefix(f, xs[i..])
      invariant callbacks == if withCallback then acc else []
    {
      var result := f(xs[i]);
      if result.Err? {
        InOrderFails(xs, f, i, acc);
        results := Err(result.error);
        return;
      }
      InOrderContinues(xs, f, i, acc, result.value);
      acc := acc + [result.value];
      if withCallback {
        callbacks := callbacks + [result.value];
      }
      i := i + 1;
    }
    assert xs[i..] == [];
    assert acc + [] == acc;
    results := Ok(acc);
  }

  class ParallelProcessor {
    var parallelEnabled: bool
    var maxWorkers: int
    var useProcesses: bool
    var chunkSize: int

    /** `ParallelProcessor(config)`; `cpuCount` is `os.cpu_count()`. */
    constructor (config: ParallelConfig, cpuCount: Option<int>)
      ensures parallelEnabled == (config.parallelProcessing.None? || config.parallelProcessing.value)
      ensures maxWorkers == if config.maxWorkers.Some? then config.maxWorkers.value
                            else if cpuCount.Some? && cpuCount.value != 0 then cpuCount.value else 4
      ensures useProcesses == (config.useProcesses.Some? && config.useProcesses.value)
      ensures chunkSize == if config.chunkSize.Some? then config.chunkSize.value else 1
    {
      parallelEnabled := config.parallelProcessing.None? || config.parallelProcessing.value;
      maxWorkers := if config.maxWorkers.Some? then config.maxWorkers.value
                    else if cpuCount.Some? && cpuCount.value != 0 then cpuCount.value else 4;
      useProcesses := config.useProcesses.Some? && config.useProcesses.value;
      chunkSize := if config.chunkSize.Some? then config.chunkSize.value else 1;
    }

    /** Whether `process_items` takes its sequential path for n items. */
    predicate Sequential(n: int)
      reads this
    {
      !parallelEnabled || n <= 1
    }

    /** `process_items(items, task, callback=...)`. Sequentially (parallel
        off, or at most one item) result i is the task's value for item i
        and the callback sees each result in input order. With a callback
        on the pooled path results arrive in `completion` order; without
        one, `executor.map` keeps input order. */
    method ProcessItems<T, R>(items: seq<T>, f: T -> Result<R>, withCallback: bool, completion: seq<nat>)
      returns (results: Result<seq<R>>, callbacks: seq<R>)
      requires !Sequential(|items|) && withCallback ==> IsPermutation(completion, |items|)
      ensures Sequential(|items|) ==>
        results == MapResults(f, items) && callbacks == if withCallback then OkPrefix(f, items) else []
      ensures !Sequential(|items|) && withCallback ==>
        (forall j :: 0 <= j < |completion| ==> completion[j] < |items|) &&
        results == MapResults(f, Permute(items, completion)) &&
        callbacks == OkPrefix(f, Permute(items, completion))
      ensures !Sequential(|items|) && !withCallback ==> results == MapResults(f, items) && callbacks == []
    {
      if !parallelEnabled || |items| <= 1 {
        results, callbacks := RunInOrder(items, f, withCallback);
      } else if withCallback {
        PermutationBounded(completion, |items|);
        results, callbacks := RunInOrder(Permute(items, completion), f, true);
      } else {
        results, callbacks := MapResults(f, items), [];
      }
    }

    /** `process_batches(items, batch_size, task)`: the chunks handed to
        `process_items` without a callback. */
    method ProcessBatches<T, R>(items: seq<T>, batchSize: int, f: seq<T> -> Result<R>)
      returns (results: Result<seq<R>>)
      ensures Chunks(items, batchSize).Err? ==> results == Err(Chunks(items, batchSize).error)
      ensures Chunks(items, batchSize).Ok? ==> results == MapResults(f, Chunks(items, batchSize).value)
    {
      var chunks := Chunks(items, batchSize);
      if chunks.Err? {
        results := Err(chunks.error);
        return;
      }
      var callbacks;
      results, callbacks := ProcessItems(chunks.value, f, false, []);
    }

    /** `set_max_workers(workers)`. */
    method SetMaxWorkers(workers: int)
      modifies this
      ensures maxWorkers == Max(1, workers) && maxWorkers >= 1
      ensures parallelEnabled == old(parallelEnabled) && useProcesses == old(useProcesses)
      ensures chunkSize == old(chunkSize)
    {
      maxWorkers := Max(1, workers);
    }

    /** `enable_parallel(enabled)`. */
    method EnableParallel(enabled: bool)
      modifies this
      ensures parallelEnabled == enabled
      ensures maxWorkers == old(maxWorkers) && useProcesses == old(useProcesses) && chunkSize == old(chunkSize)
    {
      parallelEnabled := enabled;
    }

    /** `use_process_pool(use_processes)`. */
    method UseProcessPool(use: bool)
      modifies this
      ensures useProcesses == use
      ensures maxWorkers == old(maxWorkers) && parallelEnabled == old(parallelEnabled) && chunkSize == old(chunkSize)
    {
      useProcesses := use;
    }
  }
}
