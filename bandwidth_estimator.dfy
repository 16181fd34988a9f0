/**
 * The sliding-percentile bandwidth estimator: download samples
 * (duration, bytes) become bits-per-second observations weighted by the
 * square root of the byte count; two accumulators decide when the estimate
 * is good enough to be used, and the median of the window is cached.
 *
 * `Math.sqrt` is not modelled: the caller passes the square root of the byte
 * count alongside it.
 */
module BandwidthEstimation {
  import opened Wrappers
  import opened SlidingPercentileWindow

  /** Milliseconds of sampling after which the estimate is good. */
  const ELAPSED_MILLIS_FOR_ESTIMATE: real := 2000.0
  /** Bytes (512 KiB) after which the estimate is good. */
  const BYTES_TRANSFERRED_FOR_ESTIMATE: real := 524288.0
  /** Capacity of the window, in units of sqrt(bytes). */
  const DEFAULT_SLIDING_WINDOW_MAX_WEIGHT: real := 2000.0

  /** One call of `sample`: a request's duration in milliseconds and its size in bytes. */
  datatype Download = Download(durationMs: real, numBytes: real)

  /** The estimate is good once either accumulator reaches its threshold. */
  predicate GoodEstimate(elapsedMs: real, bytes: real) {
    elapsedMs >= ELAPSED_MILLIS_FOR_ESTIMATE || bytes >= BYTES_TRANSFERRED_FOR_ESTIMATE
  }

  /** The sum of the durations of `h`, non-positive ones included. */
  function ElapsedOf(h: seq<Download>): real {
    if h == [] then 0.0 else ElapsedOf(h[..|h| - 1]) + h[|h| - 1].durationMs
  }

  /** The sum of the byte counts of `h`. */
  function BytesOf(h: seq<Download>): real {
    if h == [] then 0.0 else BytesOf(h[..|h| - 1]) + h[|h| - 1].numBytes
  }

  ghost predicate NonNegativeDownloads(h: seq<Download>) {
    forall i :: 0 <= i < |h| ==> h[i].durationMs >= 0.0 && h[i].numBytes >= 0.0
  }

  /** The bits-per-second value of a download of positive duration. */
  function BitsPerSecond(durationMs: real, numBytes: real): (r: real)
    requires durationMs > 0.0
    ensures numBytes >= 0.0 ==> r >= 0.0
  {
    8000.0 * numBytes / durationMs
  }

  lemma {:induction false} AccumulatorsOfSuffix(h: seq<Download>, more: seq<Download>)
    ensures ElapsedOf(h + more) == ElapsedOf(h) + ElapsedOf(more)
    ensures BytesOf(h + more) == BytesOf(h) + BytesOf(more)
    decreases |more|
  {
    if more == [] {
      assert h + more == h;
    } else {
      var m := more[..|more| - 1];
      assert (h + more)[..|h + more| - 1] == h + m;
      AccumulatorsOfSuffix(h, m);
    }
  }

  lemma {:induction false} NonNegativeAccumulators(h: seq<Download>)
    requires NonNegativeDownloads(h)
    ensures ElapsedOf(h) >= 0.0 && BytesOf(h) >= 0.0
  {
    if h != [] {
      NonNegativeAccumulators(h[..|h| - 1]);
    }
  }

  /**
   * With non-negative downloads a good estimate stays good: whatever is
   * sampled afterwards only grows the accumulators.
   */
  lemma GoodEstimateStaysGood(h: seq<Download>, more: seq<Download>)
    requires NonNegativeDownloads(more)
    requires GoodEstimate(ElapsedOf(h), BytesOf(h))
    ensures GoodEstimate(ElapsedOf(h + more), BytesOf(h + more))
  {
    AccumulatorsOfSuffix(h, more);
    NonNegativeAccumulators(more);
  }

  /**
   * Downloads that together last less than 2000 ms and carry less than
   * 512 KiB never make the estimate good, however they are split.
   */
  lemma {:induction false} ConfidenceFloor(h: seq<Download>)
    requires NonNegativeDownloads(h)
    requires ElapsedOf(h) < ELAPSED_MILLIS_FOR_ESTIMATE && BytesOf(h) < BYTES_TRANSFERRED_FOR_ESTIMATE
    ensures forall k :: 0 <= k <= |h| ==> !GoodEstimate(ElapsedOf(h[..k]), BytesOf(h[..k]))
  {
    forall k | 0 <= k <= |h|
      ensures !GoodEstimate(ElapsedOf(h[..k]), BytesOf(h[..k]))
    {
      assert h == h[..k] + h[k..];
      AccumulatorsOfSuffix(h[..k], h[k..]);
      assert forall i :: 0 <= i < |h[k..]| ==> h[k..][i] == h[k + i];
      NonNegativeAccumulators(h[k..]);
    }
  }

  class SlidingPercentileBandwidthEstimator {
    const slidingPercentile: SlidingPercentile
    var totalTimeElapsed: real
    var totalBytesTransferred: real
    var bandwidthEstimate: real
    /** Every download sampled so far, in order. */
    ghost var history: seq<Download>

    ghost predicate Valid()
      reads this, slidingPercentile
    {
      && slidingPercentile.Valid()
      && slidingPercentile.maxWeight == DEFAULT_SLIDING_WINDOW_MAX_WEIGHT
      && totalTimeElapsed == ElapsedOf(history)
      && totalBytesTransferred == BytesOf(history)
    }

    constructor ()
      ensures Valid() && fresh(slidingPercentile)
      ensures slidingPercentile.window == [] && slidingPercentile.samples == []
      ensures totalTimeElapsed == 0.0 && totalBytesTransferred == 0.0 && bandwidthEstimate == 0.0
      ensures history == []
    {
      slidingPercentile := new SlidingPercentile(DEFAULT_SLIDING_WINDOW_MAX_WEIGHT);
      totalTimeElapsed := 0.0;
      totalBytesTransferred := 0.0;
      bandwidthEstimate := 0.0;
      history := [];
    }

    /** Whether there is enough data for a meaningful estimate. */
    function HasGoodEstimate(): bool
      reads this
    {
      GoodEstimate(totalTimeElapsed, totalBytesTransferred)
    }

    /** The cached estimate when it is good, the caller's default otherwise. */
    function GetBandwidthEstimate(defaultEstimate: real): (r: real)
      reads this
      ensures HasGoodEstimate() ==> r == bandwidthEstimate
      ensures !HasGoodEstimate() ==> r == defaultEstimate
    {
      if !HasGoodEstimate() then defaultEstimate else bandwidthEstimate
    }

    /**
     * Recomputes the cached estimate as the median of a nonempty window;
     * nothing else the estimator keeps changes.
     */
    method RefreshMedian()
      requires Valid() && slidingPercentile.window != []
      modifies this`bandwidthEstimate, slidingPercentile`samples, slidingPercentile`sortOrder
      ensures Valid()
      ensures slidingPercentile.window == old(slidingPercentile.window)
      ensures slidingPercentile.sortOrder == SortOrder.ByValue
      ensures PercentileOf(slidingPercentile.samples, 0.5 * slidingPercentile.totalWeight) == Some(bandwidthEstimate)
    {
      var median := slidingPercentile.GetPercentile(0.5);
      assert |multiset(slidingPercentile.samples)| == |multiset(slidingPercentile.window)| > 0;
      bandwidthEstimate := median.value;
    }

    /** Adds a download to both accumulators, keeping them the sums over the history. */
    method Accumulate(durationMs: real, numBytes: real)
      requires totalTimeElapsed == ElapsedOf(history) && totalBytesTransferred == BytesOf(history)
      modifies this`totalTimeElapsed, this`totalBytesTransferred, this`history
      ensures totalTimeElapsed == ElapsedOf(history) && totalBytesTransferred == BytesOf(history)
      ensures history == old(history) + [Download(durationMs, numBytes)]
      ensures totalTimeElapsed == old(totalTimeElapsed) + durationMs
      ensures totalBytesTransferred == old(totalBytesTransferred) + numBytes
    {
      totalTimeElapsed := totalTimeElapsed + durationMs;
      totalBytesTransferred := totalBytesTransferred + numBytes;
      history := history + [Download(durationMs, numBytes)];
      assert history[..|history| - 1] == old(history);
    }

    /**
     * What one `sample` call leaves behind: the download joins the history.
     * With a positive duration its bits-per-second value, weighted by
     * `sqrtBytes`, joins the window under the next index, the oldest samples
     * are evicted down to capacity and, when the estimate is good, the
     * cached estimate is the weighted median of the window (its samples left
     * sorted by value). Otherwise the window and the cached estimate are as
     * they were.
     */
    twostate predicate Sampled(durationMs: real, numBytes: real, sqrtBytes: real)
      reads this, slidingPercentile
    {
      && history == old(history) + [Download(durationMs, numBytes)]
      && (durationMs <= 0.0 ==>
            && slidingPercentile.window == old(slidingPercentile.window)
            && slidingPercentile.nextSampleIndex == old(slidingPercentile.nextSampleIndex))
      && (durationMs > 0.0 ==>
            && slidingPercentile.window == Evict(old(slidingPercentile.window) +
                 [SlidingPercentileWindow.Sample(old(slidingPercentile.nextSampleIndex), sqrtBytes,
                                                 BitsPerSecond(durationMs, numBytes))],
                 DEFAULT_SLIDING_WINDOW_MAX_WEIGHT)
            && slidingPercentile.nextSampleIndex == old(slidingPercentile.nextSampleIndex) + 1)
      && (durationMs > 0.0 && HasGoodEstimate() ==>
            && slidingPercentile.sortOrder == SortOrder.ByValue
            && PercentileOf(slidingPercentile.samples, 0.5 * slidingPercentile.totalWeight) == Some(bandwidthEstimate))
      && (!(durationMs > 0.0 && HasGoodEstimate()) ==> bandwidthEstimate == old(bandwidthEstimate))
    }

    /**
     * Takes a download sample. The accumulators always grow, even for a
     * non-positive duration; only a positive duration adds a window sample,
     * and only then, if the estimate is good, is the median recomputed.
     */
    method Sample(durationMs: real, numBytes: real, sqrtBytes: real)
      requires Valid()
      requires numBytes >= 0.0 && sqrtBytes >= 0.0
      modifies this, slidingPercentile
      ensures Valid()
      ensures history == old(history) + [Download(durationMs, numBytes)]
      ensures totalTimeElapsed == old(totalTimeElapsed) + durationMs
      ensures totalBytesTransferred == old(totalBytesTransferred) + numBytes
      ensures durationMs <= 0.0 ==>
                && slidingPercentile.window == old(slidingPercentile.window)
                && slidingPercentile.samples == old(slidingPercentile.samples)
                && slidingPercentile.sortOrder == old(slidingPercentile.sortOrder)
                && slidingPercentile.nextSampleIndex == old(slidingPercentile.nextSampleIndex)
      ensures durationMs > 0.0 ==> slidingPercentile.window != []
      ensures Sampled(durationMs, numBytes, sqrtBytes)
      ensures durationMs >= 0.0 && old(HasGoodEstimate()) ==> HasGoodEstimate()
    {
      Accumulate(durationMs, numBytes);
      if durationMs > 0.0 {
        var bitsPerSecond := BitsPerSecond(durationMs, numBytes);
        ghost var before := slidingPercentile.window + [SlidingPercentileWindow.Sample(slidingPercentile.nextSampleIndex, sqrtBytes, bitsPerSecond)];
        slidingPercentile.AddSample(sqrtBytes, bitsPerSecond);
        EvictKeepsASample(before, DEFAULT_SLIDING_WINDOW_MAX_WEIGHT);
        if HasGoodEstimate() {
          RefreshMedian();
        }
      }
    }
  }
}
