/** Progress tracking for a stage of a batch: a counter of processed items
    against a total, with a 30-cell text bar. The clock is a parameter;
    percentages and rates are exact reals. */
module Progress {
  import opened Common
  import opened Text

  /** Python's `a // b` (rounding toward negative infinity). */
  function FloorDiv(a: int, b: int): (q: int)
    requires b != 0
    ensures b > 0 ==> q * b <= a < q * b + b
    ensures b < 0 ==> q * b >= a > q * b + b
  {
    if b > 0 then a / b else (-a) / (-b)
  }

  const BarLength: int := 30

  /** Cells of the bar that are filled: `int(30 * processed // total)`. */
  function FilledLength(processed: int, total: int): int
    requires total != 0
  {
    FloorDiv(BarLength * processed, total)
  }

  /** The bar `'█' * filled + '░' * (30 - filled)`; a negative count
      repeats nothing. */
  function Bar(processed: int, total: int): string
    requires total != 0
  {
    var filled := FilledLength(processed, total);
    Repeat('█', filled) + Repeat('░', BarLength - filled)
  }

  lemma MulLe(x: int, y: int, t: int)
    requires x <= y && t > 0
    ensures x * t <= y * t
  {
    assert y * t - x * t == (y - x) * t;
  }

  /** While no more items than the total have been processed, between 0
      and 30 cells are filled, all 30 exactly when everything is
      processed. */
  lemma FilledBounds(processed: int, total: int)
    requires total > 0 && 0 <= processed <= total
    ensures 0 <= FilledLength(processed, total) <= BarLength
    ensures FilledLength(processed, total) == BarLength <==> processed == total
  {
    var q := FilledLength(processed, total);
    assert q * total <= BarLength * processed < q * total + total;
    assert q * total + total == (q + 1) * total;
    MulLe(processed, total, BarLength);
    if q < 0 {
      MulLe(q + 1, 0, total);
    }
    if q > BarLength {
      MulLe(BarLength + 1, q, total);
    }
    if processed == total {
      if q < BarLength {
        MulLe(q + 1, BarLength, total);
      }
    } else {
      MulLe(processed, total - 1, BarLength);
    }
  }

  /** While no more items than the total have been processed, the bar has
      exactly 30 cells: the filled ones first, then the empty ones. */
  lemma BarShape(processed: int, total: int)
    requires total > 0 && 0 <= processed <= total
    ensures |Bar(processed, total)| == BarLength
    ensures forall i :: 0 <= i < FilledLength(processed, total) ==> Bar(processed, total)[i] == '█'
    ensures forall i :: FilledLength(processed, total) <= i < BarLength ==> Bar(processed, total)[i] == '░'
  {
    FilledBounds(processed, total);
    var filled := FilledLength(processed, total);
    var bar := Bar(processed, total);
    var full := Repeat('█', filled);
    var empty := Repeat('░', BarLength - filled);
    assert bar == full + empty;
    forall i | filled <= i < BarLength ensures bar[i] == '░' {
      assert bar[i] == empty[i - filled];
    }
  }

  /** Processing more never empties a cell. */
  lemma FilledMonotone(p: int, q: int, total: int)
    requires total > 0 && p <= q
    ensures FilledLength(p, total) <= FilledLength(q, total)
  {
    var a := FilledLength(p, total);
    var b := FilledLength(q, total);
    MulLe(p, q, BarLength);
    if a > b {
      MulLe(b + 1, a, total);
    }
  }

  /** The share of processed items, as a percentage; 0 without a positive
      total. */
  function Percentage(processed: int, total: int): (r: real)
    ensures total <= 0 ==> r == 0.0
    ensures total > 0 && 0 <= processed <= total ==> 0.0 <= r <= 100.0
    ensures total > 0 && processed == total ==> r == 100.0
  {
    if total > 0 then (processed as real / total as real) * 100.0 else 0.0
  }

  /** What `finish` returns. */
  datatype Summary = Summary(stage: string, totalItems: int, processedItems: int,
                             elapsedSeconds: real, itemsPerSecond: real)

  /** What `update` returns: the percentage, or the division by zero the
      bar raises when progress is shown without a total. */
  datatype UpdateResult = Percent(value: real) | ZeroDivision

  datatype ProgressConfig = ProgressConfig(showProgress: Option<bool>)

  class ProgressManager {
    var showProgress: bool
    var startTime: Option<real>
    var totalItems: int
    var processedItems: int
    var currentStage: string

    /** `ProgressManager(config)`: progress shown unless switched off,
        nothing started. */
    constructor (config: ProgressConfig)
      ensures showProgress <==> config.showProgress != Some(false)
      ensures startTime == None && totalItems == 0 && processedItems == 0 && currentStage == ""
    {
      showProgress := config.showProgress != Some(false);
      startTime := None;
      totalItems := 0;
      processedItems := 0;
      currentStage := "";
    }

    /** `start(total_items, stage_name)` at time `now`: a fresh count for
        the named stage; it always reports that tracking started. */
    method Start(total: int, stageName: string, now: real) returns (started: bool)
      modifies this
      ensures started
      ensures startTime == Some(now) && totalItems == total && processedItems == 0 && currentStage == stageName
      ensures showProgress == old(showProgress)
    {
      startTime := Some(now);
      totalItems := total;
      processedItems := 0;
      currentStage := stageName;
      started := true;
    }

    /** `update(increment)`: the count grows by exactly `increment`, even
        when drawing the bar then fails; the percentage is 0 without a
        positive total, and drawing the bar without a total divides by
        zero. */
    method Update(increment: int) returns (r: UpdateResult)
      modifies this
      ensures processedItems == old(processedItems) + increment
      ensures totalItems == old(totalItems) && currentStage == old(currentStage)
      ensures startTime == old(startTime) && showProgress == old(showProgress)
      ensures r.ZeroDivision? <==> showProgress && totalItems == 0
      ensures r.Percent? ==> r.value == Percentage(processedItems, totalItems)
    {
      processedItems := processedItems + increment;
      if showProgress && totalItems == 0 {
        return ZeroDivision;
      }
      r := Percent(Percentage(processedItems, totalItems));
    }

    /** The bar `update` draws for the current count. */
    function CurrentBar(): string
      reads this
      requires totalItems != 0
    {
      Bar(processedItems, totalItems)
    }

    /** `finish()` at time `now`: the current stage and counts, unchanged;
        no elapsed time before a start, nor for a start time of zero,
        which is falsy. */
    method Finish(now: real) returns (summary: Summary)
      ensures summary.stage == currentStage
      ensures summary.totalItems == totalItems && summary.processedItems == processedItems
      ensures startTime.None? || startTime == Some(0.0) ==>
        summary.elapsedSeconds == 0.0 && summary.itemsPerSecond == 0.0
      ensures startTime.Some? && startTime.value != 0.0 ==> summary.elapsedSeconds == now - startTime.value
      ensures summary.elapsedSeconds > 0.0 ==>
        summary.itemsPerSecond == processedItems as real / summary.elapsedSeconds
    {
      var elapsed := if startTime.Some? && startTime.value != 0.0 then now - startTime.value else 0.0;
      var rate := if elapsed > 0.0 then processedItems as real / elapsed else 0.0;
      summary := Summary(currentStage, totalItems, processedItems, elapsed, rate);
    }
  }
}
