# Low-latency ABR decisions and chunked box appending, in Dafny

This project models the adaptive-bitrate (ABR) decision path of a low-latency fork of
Shaka Player. It also models the byte-level ISO-BMFF box scanner that the fork uses to
append media in chunks. It covers four source files:

- **`SlidingPercentile`** (`sliding_percentile.dfy`, module `SlidingPercentileWindow`).
  - A class over a sequence of `(index, weight, value)` samples, with real weights.
  - `AddSample` appends a sample, then evicts weight from the oldest samples until the
    total is at most `maxWeight`. The oldest survivor may be trimmed only partly.
  - `GetPercentile` sorts by value and integrates weight.
  - The sort-order cache stays an explicit field.
  - The ghost field `window` keeps the samples in insertion order, whatever order the
    array happens to be in.
  - The sort is the stable insertion sort in `sorting.dfy`.
- **`SlidingPercentileBandwidthEstimator`** (`bandwidth_estimator.dfy`).
  - `Sample` turns a download into a bits-per-second sample.
  - The two accumulators decide whether the estimate is good.
  - The median is cached only for a positive-duration sample taken while the estimate
    is good.
  - The accumulators also grow for a non-positive duration.
  - A ghost `history` of downloads is the specification of both accumulators.
- **`SimpleLLAbrManager`** (`abr_decisions.dfy` for the pure selection rules,
  `abr_manager.dfy` for the class).
  - Every operation of the class is specified by a function on a value `AbrState`,
    which is a snapshot of the class's fields. Steps that can call the switch callback
    return a `Step`: the new state, the variant passed to `switch_` (if any), and
    whether the step threw a `TypeError`.
  - The method is proved to follow that function, and the decision properties are
    lemmas about the functions.
  - Timers are fields holding the pending delay: `stop()` clears the field and
    `tickAfter(d)` sets it. A timer firing is a method (`FireIncreaseBitrateTimer`, …).
  - `Date.now()`, `navigator.connection.downlink`, the live-edge classification, the
    service description and the presentation latency are parameters.
  - `meetsRestrictions` is an uninterpreted predicate carried by the configuration.
- **`SegmentAppender`** (`segment_appender.dfy`, module `SegmentAppending`).
  - `parseUint32` is modelled with JavaScript's 32-bit semantics from `js_int.dfy`
    (`ToInt32`, `ToUint32`, `<<` taking its count modulo 32), and is proved to equal the
    signed big-endian value.
  - `parseBoxType`, `concatData` and `subarray` clamping are modelled as well.
  - `findLastBoxCompleted` is a loop proved against a recursive specification,
    `ScanFrom`.
  - The buffer-splitting branch of `onReadUpdate` is modelled on a class with `buffer`,
    `bufferSize` and `offset`. Ghost sequences `emitted` and `received` stand in for
    `onSegmentBoxReady` and the stream reader.

Behaviour of the code that the model keeps as written, and proves:

- With no good estimate and no earlier choice, `chooseVariant` returns the *highest*
  candidate (`NoHistoryPicksHighest`).
- The downward ratchet scan changes the failure counter once per variant it examines, not
  once per call (`CounterAfterDownScan`).
- `10 << counter` wraps like a JavaScript 32-bit shift, so the backoff delay is negative
  at counter 28 and back to 10 at counter 32 (`BackoffWraps`).
- A URI admitted twice can drop out of the processed set while it is still in the list
  (`DuplicateLeavesSetBehind`).
- `findLastBoxCompleted` reports the *latest* matching box with `offset` set to the end
  of the latest non-matching box. So two adjacent matching boxes give a cut that ends
  inside the second one (`ConsecutiveMatchesExample`).
- `onReadUpdate` compares the cut against the `bufferSize_` recorded at the previous
  split, not the current length. When the two are equal the whole buffer is handed on,
  bytes past the cut included.
- `stop()` resets the switch callback, the variants, the last-choice time and the
  playback rate. `disable()` only clears `enabled`.
- `sample` adds the duration and byte count to the accumulators even when the duration
  is not positive. It skips only the window insertion and the median refresh.
- `PercentileMonotone` holds for any samples sorted by value, repeated values included.
- The sort that orders samples and variants is stable: elements with equal keys keep
  their relative order (`SortIsStable`).

## Model

| member | source | states |
|---|---|---|
| Sorting.SortBy | lib/abr/sliding_percentile.js:127-136 | The in-place sort gives a sequence sorted by the key that is a permutation of its input, of the same length. |
| JsInt.ToInt32 | lib/abr/simple_ll_abr_manager.js:515-516 | The result of a JavaScript int32 conversion lies in [-2^31, 2^31) and leaves values already in range unchanged. |
| JsInt.ToUint32 | lib/media/segment_appender.js:152-155 | The result of `>>> 0` lies in [0, 2^32) and leaves values already in range unchanged. |
| JsInt.WrapIsCongruent | lib/media/segment_appender.js:151-156 | Both conversions differ from their argument by a multiple of 2^32, and `ToUint32 ∘ ToInt32 == ToUint32`. |
| SlidingPercentileWindow.TotalWeightAppend | lib/abr/sliding_percentile.js:64-65 | The total weight of a concatenation is the sum of the totals. |
| SlidingPercentileWindow.TotalWeightPermutation | lib/abr/sliding_percentile.js:127-136 | Reordering the samples leaves the total weight unchanged. |
| SlidingPercentileWindow.Evict | lib/abr/sliding_percentile.js:67-81 | The survivors are a suffix of the input, except that the first survivor may have a smaller positive weight, and then the total is exactly `maxWeight`. The total ends at most `maxWeight` or the window is empty. Every dropped prefix carried at least the excess. |
| SlidingPercentileWindow.EvictKeepsASample | lib/abr/sliding_percentile.js:67-81 | With a positive `maxWeight`, eviction never empties a nonempty window. |
| SlidingPercentileWindow.EvictKeepsSuffix | lib/abr/sliding_percentile.js:61-81 | Eviction keeps the indices consecutive up to the next index and the weights non-negative. |
| SlidingPercentileWindow.EvictOldest | lib/abr/sliding_percentile.js:67-81 | The eviction loop ends with exactly `Evict` of its input, and its running total equals the total weight of what it kept. |
| SlidingPercentileWindow.AppendNext | lib/abr/sliding_percentile.js:57-65 | Appending a sample with the next index keeps the indices consecutive and the weights non-negative, and adds its weight to the total. |
| SlidingPercentileWindow.ConsecutiveIsIncreasing | lib/abr/sliding_percentile.js:61 | Indices taken from the counter are strictly increasing along the window. |
| SlidingPercentileWindow.IndexOrderUnique | lib/abr/sliding_percentile.js:112-121 | A permutation sorted by index is the unique strictly index-increasing sequence, so sorting by index restores insertion order. |
| SlidingPercentileWindow.PercentileOf | lib/abr/sliding_percentile.js:93-106 | The percentile is absent (NaN) exactly for an empty window, and otherwise is one of the stored values. |
| SlidingPercentileWindow.PercentileMonotone | lib/abr/sliding_percentile.js:94-105 | Over samples sorted by value, a larger desired weight never gives a smaller percentile. |
| SlidingPercentileWindow.FirstReaching | lib/abr/sliding_percentile.js:97-103 | The first index from `from` on at which the running weight reaches the desired weight, or the length when none does. |
| SlidingPercentileWindow.IntegrateWeights | lib/abr/sliding_percentile.js:96-105 | The accumulating loop returns the value of the first sample whose running weight reaches the desired weight, the last value when none does, and nothing for no samples. |
| SlidingPercentileWindow.TotalWeightOfSamples | lib/abr/sliding_percentile.js:42-81 | In every valid state, the `totalWeight` field equals the sum of the weights held and is non-negative. |
| SlidingPercentileWindow.NonNegativeTotal | lib/abr/sliding_percentile.js:65 | Non-negative weights sum to a non-negative total. |
| SlidingPercentileWindow.SlidingPercentile.constructor | lib/abr/sliding_percentile.js:18-39 | A new window is empty and unsorted, with index 0, total 0 and the given `maxWeight`. |
| SlidingPercentileWindow.SlidingPercentile.Reset | lib/abr/sliding_percentile.js:42-47 | `reset` empties the samples, zeroes the total and the index counter, clears the sort order, and keeps `maxWeight`. |
| SlidingPercentileWindow.SlidingPercentile.EnsureSortedByIndex | lib/abr/sliding_percentile.js:112-121 | Afterwards the array holds exactly the samples in insertion order. |
| SlidingPercentileWindow.SlidingPercentile.EnsureSortedByValue | lib/abr/sliding_percentile.js:127-136 | The array is sorted by value only if it was not already, and is a permutation of the old array. |
| SlidingPercentileWindow.SlidingPercentile.AddSample | lib/abr/sliding_percentile.js:56-82 | The window becomes `Evict(old window + [new sample])`, with the next index, and the counter advances by one. The invariant holds afterwards (the total equals the sum and is at most `maxWeight`, indices consecutive). |
| SlidingPercentileWindow.SlidingPercentile.GetPercentile | lib/abr/sliding_percentile.js:93-106 | The result is `PercentileOf(value-sorted samples, p * totalWeight)`. Only the order of the samples changes: the multiset, the window and the total stay the same. |
| SlidingPercentileWindow.SlidingPercentile.Integrate | lib/abr/sliding_percentile.js:95-105 | The integration over the current array equals `PercentileOf` at `p * totalWeight`. |
| BandwidthEstimation.BitsPerSecond | lib/abr/sliding_percentile_bandwidth_estimator.js:53 | The rate of a download with non-negative bytes is non-negative. |
| BandwidthEstimation.AccumulatorsOfSuffix | lib/abr/sliding_percentile_bandwidth_estimator.js:50-51 | The accumulators over a concatenated history are the sums over the parts. |
| BandwidthEstimation.NonNegativeAccumulators | lib/abr/sliding_percentile_bandwidth_estimator.js:50-51 | Non-negative downloads give non-negative accumulators. |
| BandwidthEstimation.GoodEstimateStaysGood | lib/abr/sliding_percentile_bandwidth_estimator.js:80-84 | Once good, the estimate stays good under further non-negative downloads. |
| BandwidthEstimation.ConfidenceFloor | lib/abr/sliding_percentile_bandwidth_estimator.js:68-84 | A non-negative history below both thresholds (2000 ms, 512 KiB) was never good at any prefix, so the default was returned throughout. |
| BandwidthEstimation.SlidingPercentileBandwidthEstimator.constructor | lib/abr/sliding_percentile_bandwidth_estimator.js:14-39 | A fresh, empty window of capacity 2000, with both accumulators and the cached estimate at 0. |
| BandwidthEstimation.SlidingPercentileBandwidthEstimator.RefreshMedian | lib/abr/sliding_percentile_bandwidth_estimator.js:55-57 | The cached estimate becomes the window's 0.5 percentile, and the window is unchanged. |
| BandwidthEstimation.SlidingPercentileBandwidthEstimator.Accumulate | lib/abr/sliding_percentile_bandwidth_estimator.js:50-51 | Both accumulators grow by the sample, and they still equal the sums over the history. |
| BandwidthEstimation.SlidingPercentileBandwidthEstimator.Sampled | lib/abr/sliding_percentile_bandwidth_estimator.js:49-59 | What one `sample` call leaves behind. Only a positive duration adds the window sample (weight sqrt(bytes), value 8000·bytes/ms, next index) through eviction. The cached estimate becomes the weighted median of the window, with the samples sorted by value, only when that sample leaves the estimate good. Otherwise the window and the cache are unchanged. |
| BandwidthEstimation.SlidingPercentileBandwidthEstimator.Sample | lib/abr/sliding_percentile_bandwidth_estimator.js:49-59 | The accumulators always grow, and the call satisfies `Sampled`. A good estimate stays good after a sample of non-negative duration. |
| BandwidthEstimation.GoodEstimate | lib/abr/sliding_percentile_bandwidth_estimator.js:80-84 | The estimate is good once the elapsed time reaches 2000 ms or the bytes reach 512 KiB. Its properties are `GoodEstimateStaysGood` and `ConfidenceFloor`. |
| BandwidthEstimation.SlidingPercentileBandwidthEstimator.HasGoodEstimate | lib/abr/sliding_percentile_bandwidth_estimator.js:80-84 | `GoodEstimate` of the two accumulators, which the class invariant ties to the download history. |
| BandwidthEstimation.SlidingPercentileBandwidthEstimator.GetBandwidthEstimate | lib/abr/sliding_percentile_bandwidth_estimator.js:68-73 | The cached estimate exactly when the estimate is good, the caller's default otherwise. |
| Sorting.InsertGoesFirstAmongEqual | lib/abr/sliding_percentile.js:127-136 | The inserted element goes before every element with the same key. |
| Sorting.SortIsStable | lib/abr/simple_ll_abr_manager.js:595-597 | For every key value, the elements with that key appear in the sorted sequence in their input order. |
| AbrDecisions.FilterAndSortVariants | lib/abr/simple_ll_abr_manager.js:582-598 | The restricted variants in stable ascending bandwidth order. Its properties are `FilterAndSortFacts`, `FilteredMembership` and `Sorting.SortIsStable`. |
| AbrDecisions.Candidates | lib/abr/simple_ll_abr_manager.js:171-180 | The list `chooseVariant` chooses from. Its properties are `CandidatesOffered`, `CandidatesWhenSomeMeets` and `CandidatesWhenNoneMeets`. |
| AbrDecisions.InBand | lib/abr/simple_ll_abr_manager.js:224-236 | The estimate lies between `rate·bw[i]/down` and `rate·bw[i+1]/up`, both edges included. For the top variant the upper edge is `rate·Infinity/up`, which holds unless the rate is 0. |
| AbrDecisions.Filter | lib/abr/simple_ll_abr_manager.js:583-592 | The filter keeps every occurrence of a variant that meets the predicate and drops every other one. |
| AbrDecisions.FilterAndSortFacts | lib/abr/simple_ll_abr_manager.js:582-598 | The result is sorted ascending by bandwidth and, as a multiset, is exactly the variants meeting the restrictions (all of them when the restrictions are null). |
| AbrDecisions.FilteredMembership | lib/abr/simple_ll_abr_manager.js:582-598 | A variant is in the result if and only if it is offered and meets the restrictions. |
| AbrDecisions.LowestFirst | lib/abr/simple_ll_abr_manager.js:177-179 | The first variant of the unrestricted sort is offered and has the lowest bandwidth. |
| AbrDecisions.CandidatesOffered | lib/abr/simple_ll_abr_manager.js:171-180 | The candidate list is sorted, drawn from the variants, and nonempty exactly when variants exist. |
| AbrDecisions.CandidatesWhenSomeMeets | lib/abr/simple_ll_abr_manager.js:171-180 | When some variant meets the restrictions, the candidates are the filtered and sorted list. |
| AbrDecisions.CandidatesWhenNoneMeets | lib/abr/simple_ll_abr_manager.js:174-180 | When none meets them, the candidates are the single lowest-bandwidth variant. |
| AbrDecisions.EffectiveRate | lib/abr/simple_ll_abr_manager.js:221-222 | The effective rate is the absolute playback rate, 1 for NaN, and never negative. |
| AbrDecisions.LastInBand | lib/abr/simple_ll_abr_manager.js:220-239 | The result is the last index whose inclusive band contains the estimate (the next bandwidth being infinity for the top variant), or -1 for none. |
| AbrDecisions.ChooseByBandwidth | lib/abr/simple_ll_abr_manager.js:211-241 | The banded choice is absent only for no candidates, and is always one of them. |
| AbrDecisions.ChooseVariantByBandwidth | lib/abr/simple_ll_abr_manager.js:211-241 | The scanning loop returns exactly `ChooseByBandwidth`. |
| AbrDecisions.AffordableHasBandAbove | lib/abr/simple_ll_abr_manager.js:235-238 | With unit targets, any affordable variant has an in-band variant at or above it. |
| AbrDecisions.UnitTargetsPickHighestAffordable | lib/abr/simple_ll_abr_manager.js:216-240 | With unit targets, the choice is the highest affordable variant, or the lowest when none is affordable. |
| AbrDecisions.HysteresisExamples | lib/abr/simple_ll_abr_manager.js:211-241 | Variants 100/500/1000 with estimates 100, 500 and 1000 select 100, 500 and 1000 (the band's lower edge is inclusive). |
| AbrDecisions.AsymmetricTargetsExample | lib/abr/simple_ll_abr_manager.js:211-241 | With targets 1.2 and an estimate of 600000, the variants 100000/500000/1200000 give the 500000 variant. |
| AbrDecisions.FirstAbove | lib/abr/simple_ll_abr_manager.js:252-260 | The upward scan stops at the first variant strictly above the current bitrate, or at the end. |
| AbrDecisions.LastBelow | lib/abr/simple_ll_abr_manager.js:273-283 | The downward scan stops at the last variant strictly below the current bitrate, or at -1. |
| AbrDecisions.NextHigher | lib/abr/simple_ll_abr_manager.js:249-263 | The upward ratchet's result is absent only for no variants, and is always one of them. |
| AbrDecisions.NextLower | lib/abr/simple_ll_abr_manager.js:271-286 | The downward ratchet's result is absent only for no variants, and is always one of them. |
| AbrDecisions.RatchetUpIsOneStep | lib/abr/simple_ll_abr_manager.js:249-263 | Over sorted variants, up gives the lowest bandwidth strictly above the current one, else the highest variant. |
| AbrDecisions.RatchetDownIsOneStep | lib/abr/simple_ll_abr_manager.js:271-286 | Over sorted variants, down gives the highest bandwidth strictly below the current one, else the lowest variant. |
| AbrDecisions.RatchetExamples | lib/abr/simple_ll_abr_manager.js:249-286 | From 500 among 100/500/1000, up gives 1000 and down gives 100. |
| AbrDecisions.DownScanLength | lib/abr/simple_ll_abr_manager.js:273-284 | The downward scan examines at least one and at most all of a nonempty list's variants. |
| AbrDecisions.CounterAfterDownScan | lib/abr/simple_ll_abr_manager.js:273-284 | After a previous increase, the counter grows by the number of variants examined. Otherwise it is reset to 0 when the list is nonempty, and kept for an empty list. |
| AbrDecisions.CounterAfterUpScan | lib/abr/simple_ll_abr_manager.js:252-255 | The upward scan resets the counter to 0 when the previous switch was an increase and there is a variant to examine. Otherwise the counter is kept. It never grows. |
| AbrDecisions.IncreaseDelay | lib/abr/simple_ll_abr_manager.js:513-517 | `10 << counter` is a signed 32-bit value. `BackoffDoubles` and `BackoffWraps` give its values. |
| JsInt.JsShiftLeft | lib/abr/simple_ll_abr_manager.js:515-516 | JavaScript `<<` gives a signed 32-bit value. |
| AbrDecisions.BackoffDoubles | lib/abr/simple_ll_abr_manager.js:513-517 | Up to counter 27 the delay is 10·2^counter, doubling with each failure. |
| AbrDecisions.BackoffExample | lib/abr/simple_ll_abr_manager.js:513-517 | After two failures, the delay is 40 (the base shifted by 2). |
| AbrDecisions.BackoffWraps | lib/abr/simple_ll_abr_manager.js:515-516 | The 32-bit shift wraps: counter 28 gives -1610612736, 31 gives 0 and 32 gives 10 again. |
| AbrDecisions.Newest | lib/abr/simple_ll_abr_manager.js:338-347 | The retained window of URIs never exceeds 100 entries. |
| AbrDecisions.Admit | lib/abr/simple_ll_abr_manager.js:340-345 | The URI ends the list. Below capacity the list and the set just gain it. At capacity the length stays 100, the oldest entry is dropped from the list and deleted from the set after the new URI is added. The new URI is missing from the set only when it was the oldest entry of a full list. |
| AbrDecisions.AdmitAll | lib/abr/simple_ll_abr_manager.js:338-347 | While within capacity, the list is the old list followed by the URIs in order. |
| AbrDecisions.AdmitAllKeepsInvariant | lib/abr/simple_ll_abr_manager.js:338-347 | The list stays at most 100 long, and every URI in the set is in the list. |
| AbrDecisions.AdmitAllKeepsNewest | lib/abr/simple_ll_abr_manager.js:338-347 | The list is always the newest 100 URIs admitted. |
| AbrDecisions.DistinctUrisStayInSync | lib/abr/simple_ll_abr_manager.js:338-347 | With distinct URIs, the set equals the URIs in the list. |
| AbrDecisions.AdmitFreshKeepsSync | lib/abr/simple_ll_abr_manager.js:341-345 | Admitting one fresh URI keeps the list and the set in step. |
| AbrDecisions.DuplicateLeavesSetBehind | lib/abr/simple_ll_abr_manager.js:341-344 | Re-admitting the oldest URI of a full list leaves it in the list but removes it from the set. |
| SimpleLLAbr.DefaultBandwidth | lib/abr/simple_ll_abr_manager.js:453-460 | Without network information, the default is the configured estimate. |
| SimpleLLAbr.EstimateOf | lib/abr/simple_ll_abr_manager.js:212-214 | Whether the estimate is good, and the estimate the decisions use: the cached one when good, otherwise the default of `getDefaultBandwidth_`. |
| SimpleLLAbr.ScheduleIncrease | lib/abr/simple_ll_abr_manager.js:513-517 | Only the increase timer changes, re-armed at `IncreaseDelay` of the failure counter. |
| SimpleLLAbr.ReorderedVariants | lib/abr/simple_ll_abr_manager.js:171-180 | The order `chooseVariant` leaves `variants_` in: sorted in place when there are no restrictions or none is met, untouched otherwise. `ReorderingIsPermutation` proves it only reorders. |
| SimpleLLAbr.ChooseAmong | lib/abr/simple_ll_abr_manager.js:182-201 | The choice among the candidates: by bandwidth with a good estimate, one ratchet step after an earlier choice, the highest candidate otherwise. Its properties are `NoHistoryPicksHighest`, `NoVariantMeetsPicksLowest` and `ChoiceIgnoresList`. |
| SimpleLLAbr.ChosenVariant | lib/abr/simple_ll_abr_manager.js:167-205 | The variant `chooseVariant` returns. `ChosenVariantIsOffered` proves it is null exactly when there are no variants. |
| SimpleLLAbr.ChooseVariantStep | lib/abr/simple_ll_abr_manager.js:167-205 | The state after `chooseVariant`: variants reordered, the ratchet's effect as `RatchetAmong` states, and the choice time stamped. |
| SimpleLLAbr.ChooseAndSwitch | lib/abr/simple_ll_abr_manager.js:433-446 | A choice followed by `SwitchStep` on it. |
| SimpleLLAbr.StallCounted | lib/abr/simple_ll_abr_manager.js:472-474 | Buffering set, the stall counted, the reset timer re-armed at 30. |
| SimpleLLAbr.BufferingStarted | lib/abr/simple_ll_abr_manager.js:472-476 | `StallCounted`, then the increase timer re-armed and the decrease timer armed at 0.5. `OnBufferingStep` states the result. |
| SimpleLLAbr.RatchetAmong | lib/abr/simple_ll_abr_manager.js:187-200 | The choice changes only the bitrate, the failure counter, the previous-direction flag and the increase timer. |
| SimpleLLAbr.ChoiceIgnoresList | lib/abr/simple_ll_abr_manager.js:182-201 | The choice depends on the sorted candidates, not on the stored variant list. |
| SimpleLLAbr.ChosenVariantIsOffered | lib/abr/simple_ll_abr_manager.js:167-205 | `chooseVariant` returns null exactly when there are no variants, and otherwise one of the variants. |
| SimpleLLAbr.ReorderingIsPermutation | lib/abr/simple_ll_abr_manager.js:595-597 | The in-place sort of `variants_` only reorders it. |
| SimpleLLAbr.CandidatesSort | lib/abr/simple_ll_abr_manager.js:582-598 | With null restrictions, the sort of nonempty variants is nonempty. |
| SimpleLLAbr.NoHistoryPicksHighest | lib/abr/simple_ll_abr_manager.js:182-187 | With no good estimate and no earlier choice, the result is the highest candidate. |
| SimpleLLAbr.NoVariantMeetsPicksLowest | lib/abr/simple_ll_abr_manager.js:174-201 | When no variant meets the restrictions, every rule picks the lowest-bandwidth variant. |
| SimpleLLAbr.SuggestStreamsStep | lib/abr/simple_ll_abr_manager.js:411-447 | A suggestion pass never changes buffering, direction, stall count or enabled. |
| SimpleLLAbr.SwitchStep | lib/abr/simple_ll_abr_manager.js:439-446 | `switch_` is called with the choice only when the choice is non-null, differs from the current variant and a callback exists, and then the choice is recorded. A missing callback throws. Otherwise the current variant is kept. |
| SimpleLLAbr.SuggestStreamsFacts | lib/abr/simple_ll_abr_manager.js:411-447 | The pass does nothing before startup without a good estimate, or within the switch interval. A switch always goes to an offered variant that differs from the current one. |
| SimpleLLAbr.ScheduleSuggestStreamStep | lib/abr/simple_ll_abr_manager.js:522-529 | While buffering, only the suggest timer is re-armed at 0.1; direction and enabled are never changed. |
| SimpleLLAbr.DecreaseVideoBitrateStep | lib/abr/simple_ll_abr_manager.js:558-564 | The direction becomes "decrease" and the stall count 0. When disabled, that is all that changes. |
| SimpleLLAbr.IncreaseVideoBitrateStep | lib/abr/simple_ll_abr_manager.js:535-552 | The direction becomes "increase". When disabled, nothing else changes. A missing service description or latency throws a `TypeError`. |
| SimpleLLAbr.OnBufferingStep | lib/abr/simple_ll_abr_manager.js:467-481 | A no-op when the estimate is good. Otherwise the stall count grows and is reset at the downgrade threshold together with the direction, and the timers are re-armed. |
| SimpleLLAbr.AfterSampleStep | lib/abr/simple_ll_abr_manager.js:327-330 | Nothing is scheduled unless the estimate is good, the manager is enabled and a choice was made before. |
| SimpleLLAbr.SimpleLLAbrManager.constructor | lib/abr/simple_ll_abr_manager.js:25-130 | The initial field values: disabled, no variants, rate 1, direction "increase", no timers pending, empty URI log. |
| SimpleLLAbr.SimpleLLAbrManager.Stop | lib/abr/simple_ll_abr_manager.js:145-151 | Clears the callback, `enabled`, the variants and the last-choice time, and sets the rate to 1. Nothing else changes. |
| SimpleLLAbr.SimpleLLAbrManager.Init | lib/abr/simple_ll_abr_manager.js:158-160 | Installs the switch callback. |
| SimpleLLAbr.SimpleLLAbrManager.Enable | lib/abr/simple_ll_abr_manager.js:293-295 | Sets `enabled`. |
| SimpleLLAbr.SimpleLLAbrManager.Disable | lib/abr/simple_ll_abr_manager.js:302-304 | Clears only `enabled`. |
| SimpleLLAbr.SimpleLLAbrManager.SetVariants | lib/abr/simple_ll_abr_manager.js:383-385 | Replaces the variant list. |
| SimpleLLAbr.SimpleLLAbrManager.PlaybackRateChanged | lib/abr/simple_ll_abr_manager.js:392-394 | Replaces the playback rate. |
| SimpleLLAbr.SimpleLLAbrManager.Configure | lib/abr/simple_ll_abr_manager.js:401-403 | Stores the configuration. |
| SimpleLLAbr.SimpleLLAbrManager.ScheduleIncreaseVideoBitrate | lib/abr/simple_ll_abr_manager.js:513-517 | Re-arms the increase timer at `10 << counter`. |
| SimpleLLAbr.SimpleLLAbrManager.ChooseNextHigherBandwidthVariant | lib/abr/simple_ll_abr_manager.js:249-263 | The loop returns `NextHigher`, and leaves the counter as `CounterAfterUpScan` gives. |
| SimpleLLAbr.SimpleLLAbrManager.ChooseNextLowerBandwidthVariant | lib/abr/simple_ll_abr_manager.js:271-286 | The loop returns `NextLower`, and leaves the counter as `CounterAfterDownScan` gives. |
| SimpleLLAbr.SimpleLLAbrManager.SortCandidates | lib/abr/simple_ll_abr_manager.js:171-180 | Computes the candidate list and leaves `variants_` reordered as the in-place sort does. |
| SimpleLLAbr.SimpleLLAbrManager.TurnRatchet | lib/abr/simple_ll_abr_manager.js:187-200 | One ratchet step in the current direction sets the bitrate to the choice, the previous direction, and the increase timer from the new counter. |
| SimpleLLAbr.SimpleLLAbrManager.ChooseFromCandidates | lib/abr/simple_ll_abr_manager.js:182-201 | The choice and its effect on the state follow `ChooseAmong` and `RatchetAmong`. |
| SimpleLLAbr.SimpleLLAbrManager.ChooseAndStamp | lib/abr/simple_ll_abr_manager.js:182-204 | As `ChooseFromCandidates`, then stamps the choice time. |
| SimpleLLAbr.SimpleLLAbrManager.ChooseVariant | lib/abr/simple_ll_abr_manager.js:167-205 | The result is `ChosenVariant` and the new state is `ChooseVariantStep`, whose properties are the lemmas above. |
| SimpleLLAbr.SimpleLLAbrManager.OfferSwitch | lib/abr/simple_ll_abr_manager.js:439-446 | Follows `SwitchStep` and records the `switch_` call. |
| SimpleLLAbr.SimpleLLAbrManager.PassGuard | lib/abr/simple_ll_abr_manager.js:416-431 | Passes exactly when the startup or switch-interval gate is open, and marks startup complete when it passes. |
| SimpleLLAbr.SimpleLLAbrManager.SuggestStreams | lib/abr/simple_ll_abr_manager.js:411-447 | Follows `SuggestStreamsStep`, including its outcome and the `switch_` calls made. |
| SimpleLLAbr.SimpleLLAbrManager.ChooseAndOffer | lib/abr/simple_ll_abr_manager.js:433-446 | Chooses and then offers the switch, as `ChooseAndSwitch`. |
| SimpleLLAbr.SimpleLLAbrManager.ScheduleSuggestStream | lib/abr/simple_ll_abr_manager.js:522-529 | Follows `ScheduleSuggestStreamStep`. |
| SimpleLLAbr.SimpleLLAbrManager.DecreaseVideoBitrate | lib/abr/simple_ll_abr_manager.js:558-564 | Follows `DecreaseVideoBitrateStep`. |
| SimpleLLAbr.SimpleLLAbrManager.IncreaseVideoBitrate | lib/abr/simple_ll_abr_manager.js:535-552 | Follows `IncreaseVideoBitrateStep`. |
| SimpleLLAbr.SimpleLLAbrManager.CountStall | lib/abr/simple_ll_abr_manager.js:472-474 | Sets buffering, counts the stall and re-arms the stall-reset timer. |
| SimpleLLAbr.SimpleLLAbrManager.StartBuffering | lib/abr/simple_ll_abr_manager.js:472-476 | As `CountStall`, then re-arms the increase timer and arms the decrease timer at 0.5. |
| SimpleLLAbr.SimpleLLAbrManager.OnBuffering | lib/abr/simple_ll_abr_manager.js:467-481 | Follows `OnBufferingStep`. |
| SimpleLLAbr.SimpleLLAbrManager.OnBufferingEnd | lib/abr/simple_ll_abr_manager.js:487-490 | Clears buffering and stops the decrease timer. |
| SimpleLLAbr.SimpleLLAbrManager.FireResetStallCountTimer | lib/abr/simple_ll_abr_manager.js:496-498 | The reset timer fires once and zeroes the stall count. |
| SimpleLLAbr.SimpleLLAbrManager.FireIncreaseBitrateTimer | lib/abr/simple_ll_abr_manager.js:111-113 | The increase timer fires once and runs `increaseVideoBitrate_`. |
| SimpleLLAbr.SimpleLLAbrManager.FireDecreaseBitrateTimer | lib/abr/simple_ll_abr_manager.js:116-118 | The decrease timer fires once and runs `decreaseVideoBitrate_`. |
| SimpleLLAbr.SimpleLLAbrManager.FireSuggestStreamTimer | lib/abr/simple_ll_abr_manager.js:121-123 | The suggest timer fires once and runs `scheduleSuggestStream_`. |
| SimpleLLAbr.SimpleLLAbrManager.SegmentDownloaded | lib/abr/simple_ll_abr_manager.js:311-332 | A processed URI or a live-edge segment leaves the estimator, the state and the switch calls unchanged. Otherwise the estimator changes as `Sampled` states (history, window, cached estimate), and `AfterSampleStep` follows on the new estimate. |
| SimpleLLAbr.SimpleLLAbrManager.SampleAndSuggest | lib/abr/simple_ll_abr_manager.js:325-331 | The estimator changes as `Sampled` states, and then `AfterSampleStep` follows on the new estimate. |
| SimpleLLAbr.SimpleLLAbrManager.SuggestAfterSample | lib/abr/simple_ll_abr_manager.js:327-330 | Follows `AfterSampleStep`. |
| SimpleLLAbr.SimpleLLAbrManager.GetBandwidthEstimate | lib/abr/simple_ll_abr_manager.js:373-376 | The reported estimate is the one the decisions use without a network hint. Before the estimate is good, it is the configured default. |
| SimpleLLAbr.SimpleLLAbrManager.SegmentDownloadCompleted | lib/abr/simple_ll_abr_manager.js:338-347 | The list and the set become `AdmitAll` of the URIs, and the log invariant is kept. |
| SegmentAppending.SignedRoundTrip | lib/media/segment_appender.js:151-156 | An unsigned 32-bit value survives the signed conversion and back. |
| SegmentAppending.LaneValue | lib/media/segment_appender.js:153-155 | A byte shifted by 8, 16 or 24 and made unsigned is the byte times 2^k. |
| SegmentAppending.LanesAreBigEndian | lib/media/segment_appender.js:151-156 | OR-ing the four lanes gives the unsigned big-endian value, which is below 2^31 exactly when the first byte is below 0x80. |
| SegmentAppending.SignedOfUnsigned | lib/media/segment_appender.js:151-156 | The signed view of an unsigned value subtracts 2^32 exactly when the value is 2^31 or more. |
| SegmentAppending.ParseUint32 | lib/media/segment_appender.js:151-156 | The result of the bit expression is a signed 32-bit integer. |
| SegmentAppending.ParseUint32IsBigEndian | lib/media/segment_appender.js:151-156 | `parseUint32` is the big-endian value when the first byte is below 0x80, and that value minus 2^32 (negative) otherwise. Bytes past the end read as 0. |
| SegmentAppending.ParseBoxType | lib/media/segment_appender.js:163-168 | The type is the four characters of the bytes at offset..offset+3, in order. |
| SegmentAppending.HeaderRoundTrip | lib/media/segment_appender.js:151-168 | Parsing an encoded ISO-BMFF box header returns its size and its type. |
| SegmentAppending.ConcatData | lib/media/segment_appender.js:136-144 | The concatenation is the remaining bytes followed by the new data. |
| SegmentAppending.ByteAt | lib/media/segment_appender.js:152-155 | A byte read past the end counts as 0, as `undefined` does in the bit operations. |
| SegmentAppending.SizeAt | lib/media/segment_appender.js:151-156 | The signed view of the big-endian value at an offset. `ParseUint32IsBigEndian` proves `parseUint32` equals it. |
| SegmentAppending.Subarray | lib/media/segment_appender.js:78-79 | `subarray` never grows the buffer, and with in-range bounds it is the plain slice. |
| SegmentAppending.RelativeIndex | lib/media/segment_appender.js:78-79 | `subarray` clamps its index into [0, length] and keeps in-range indices. |
| SegmentAppending.SplitConserves | lib/media/segment_appender.js:78-79 | The head and tail subarrays at any cut put back together give the buffer. |
| SegmentAppending.PositiveChainHalts | lib/media/segment_appender.js:108-123 | When every size read is positive, the scan terminates. |
| SegmentAppending.Halts | lib/media/segment_appender.js:108-123 | The scan reaches the end or a size-0 box within a given number of boxes. |
| SegmentAppending.ScanFrom | lib/media/segment_appender.js:106-128 | The rest of the scan from an offset with the loop's `lastOffset` and `boxInfo`. `ScanFindsLastListed` characterises it. |
| SegmentAppending.Visited | lib/media/segment_appender.js:108-123 | The offsets the scan steps over: the first is the start, each next one is the previous plus its size, and each lies inside the buffer with a non-zero size. |
| SegmentAppending.LastListed | lib/media/segment_appender.js:115-117 | The index of the last complete box of a listed type among the visited boxes, or -1. |
| SegmentAppending.LastUnlisted | lib/media/segment_appender.js:115-120 | The index of the last complete box of an unlisted type among the visited boxes, or -1. |
| SegmentAppending.StepOver | lib/media/segment_appender.js:115-121 | Stepping over one more box updates the unlisted end and the recorded box as one loop iteration does. |
| SegmentAppending.ScanAfter | lib/media/segment_appender.js:106-128 | From any point of the scan, the result is the recorded box of all boxes visited, or the end of the last unlisted box. |
| SegmentAppending.ScanFindsLastListed | lib/media/segment_appender.js:96-128 | The scan finds a box exactly when a complete listed box is visited. It reports the size of the last such box, placed at the end of the last complete unlisted box before it (0 if none). With no listed box, it reports the end of the last complete unlisted box (0 if none). |
| SegmentAppending.ScanStep | lib/media/segment_appender.js:108-123 | One loop iteration (stop at size 0, complete when it fits, match or move `lastOffset`) is one step of `ScanFrom`. |
| SegmentAppending.ReadSize | lib/media/segment_appender.js:109 | Reads the signed size at a position. |
| SegmentAppending.FindLastBoxCompleted | lib/media/segment_appender.js:96-129 | Returns not-found without an offset when `offset + 8 >= length`, and otherwise exactly the scan `ScanFrom`. |
| SegmentAppending.FoundBoxFits | lib/media/segment_appender.js:115-128 | With positive sizes, a found box lies inside the buffer, and a not-found result carries an offset within it. |
| SegmentAppending.CutWithinBuffer | lib/media/segment_appender.js:70-79 | The end of a found box is a cut inside the buffer, where `subarray` is plain slicing. |
| SegmentAppending.NoTypesNotFound | lib/media/segment_appender.js:115-127 | With no types listed, nothing is ever found. |
| SegmentAppending.FragmentExample | lib/media/segment_appender.js:96-129 | For `moof`(16), `mdat`(12) and a truncated box, the scan finds offset 16 and size 12. |
| SegmentAppending.ConsecutiveMatchesExample | lib/media/segment_appender.js:115-119 | For two adjacent matching boxes, the scan reports offset 0 with the size of the second, a cut inside it. |
| SegmentAppending.SegmentAppender.constructor | lib/media/segment_appender.js:15-27 | An empty buffer with offset 0 and size 0. |
| SegmentAppending.SegmentAppender.SplitAt | lib/media/segment_appender.js:71-81 | Emits the whole buffer when the cut equals the recorded size, else the head, and keeps the tail. Bytes are conserved and `bufferSize_` is the new length. |
| SegmentAppending.SegmentAppender.Receive | lib/media/segment_appender.js:63-65 | Appends the chunk to the buffer and records it as received. |
| SegmentAppending.SegmentAppender.ReadChunk | lib/media/segment_appender.js:63-86 | Nothing is emitted unless the init segment was appended. When a box is found, the prefix up to the found box's end is emitted and the rest kept. The exception is a box end equal to the recorded `bufferSize_`: then the whole buffer is emitted and the buffer emptied. When no box is found, nothing is emitted and the buffer is the old one followed by the chunk. Bytes are conserved and `offset_` stays 0. |
| SegmentAppending.SegmentAppender.OnReadUpdate | lib/media/segment_appender.js:53-88 | `done` emits the remaining buffer (after the init segment) and completes. An empty or missing chunk changes nothing. A non-empty chunk is scanned, cut and emitted exactly as `ReadChunk` states, with bytes conserved. |
| SegmentAppending.SegmentAppender.DoneHandsOnEverything | lib/media/segment_appender.js:54-60 | Emitted chunks followed by the final buffer are exactly the bytes received. |

## Left out

- Floating point: weights, rates, bandwidths and times are exact reals. IEEE-754 rounding, infinities and NaN are not modelled, apart from the NaN playback rate, which is kept as `NotANumber`.
- Sample: `Math.sqrt` is not modelled. The caller passes the square root of the byte count, which is only required to be non-negative, and `numBytes` is required to be non-negative because the square root of a negative count is NaN.
- AddSample: requires a non-negative weight. The source does not check it, but its only caller passes `Math.sqrt(numBytes)` (lib/abr/sliding_percentile_bandwidth_estimator.js:54), which is never negative.
- Configure: requires positive downgrade and upgrade targets. The source divides by them in the banded choice (lib/abr/simple_ll_abr_manager.js:225 and 229): a zero target divides by zero and a negative one inverts the bands, and the real-valued model cannot represent the resulting Infinity or NaN. Operations that read the configuration require one to be set; the source would throw on a null configuration.
- The `navigator.connection` change listener in the constructor, which resets the estimator and switches, is not modelled. `downlink` is a parameter of `DefaultBandwidth`.
- Real timers are not modelled: each timer is a pending-delay field. Firing is a method that the environment may call while the field is set.
- `Date.now()` is the parameter `now`. The live-edge classification (`isLiveEdgeSegment_`, with `getLastSegmentRef` and `getLiveEdge`) is a boolean parameter of `SegmentDownloaded`.
- `getServiceDescription` and `getPresentationLatency` are parameters of `IncreaseVideoBitrate`.
- `StreamUtils.meetsRestrictions` is an uninterpreted predicate in the configuration.
- The `switch_` callback is a recorded sequence of calls.
- SimpleLLAbr.SwitchStep: compares the chosen variant with `currentVariant` by value, while the source compares object identity; two equal variant records are one variant here.
- `getIncreaseVideoBitrateDelay` (a constant getter), `setPlayerInterface` and logging are left out; they have no effect on the decisions.
- The recycled-sample pool of `SlidingPercentile` is left out: its count is never incremented, so it is never reused and has no observable effect.
- `onSegmentBoxReady`, `appendBuffer`, the `ended()` check and `onSegmentAppendCompleted` are asynchronous I/O. They are represented by the ghost `emitted` sequence and a completion counter.
- The `if (data)` test in `onReadUpdate` always holds for a typed array, so it is not modelled. The `!buffer` test in `findLastBoxCompleted` cannot fail on the appender's buffer.
- FindLastBoxCompleted: the `offset === undefined` default is not modelled because the caller always passes a number. Termination rests on a ghost step bound (`Halts`), which holds whenever the sizes along the scan are positive (`PositiveChainHalts`). A negative size can make the source loop forever, and that case is outside the model.
- FindLastBoxCompleted: the 64-bit `largesize` of ISO/IEC 14496-12 section 4.2 (size 1) is not handled, as in the source. Size 0 stops the scan instead of meaning "to the end of the file".
