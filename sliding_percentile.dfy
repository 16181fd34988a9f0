/**
 * The weighted sliding percentile window (a port of ExoPlayer's
 * SlidingPercentile): a bounded window of weighted samples that evicts weight
 * from its oldest samples and answers percentile queries by integrating
 * weight in ascending value order.
 *
 * Weights and values are exact reals here; the floating-point rounding of
 * the running total is not modelled.
 */
module SlidingPercentileWindow {
  import opened Wrappers
  import opened Sorting

  /** One observation: its insertion index, its (possibly partly evicted) weight and its value. */
  datatype Sample = Sample(index: nat, weight: real, value: real)

  /** The order the samples array is currently in (NONE, BY_VALUE, BY_INDEX). */
  datatype SortOrder = Unsorted | ByValue | ByIndex

  function IndexKey(x: Sample): real { x.index as real }

  function ValueKey(x: Sample): real { x.value }

  /** The sum of the weights of `s`. */
  function TotalWeight(s: seq<Sample>): real {
    if s == [] then 0.0 else s[0].weight + TotalWeight(s[1..])
  }

  /** The weight of the samples from position `j` on. */
  function WeightFrom(s: seq<Sample>, j: nat): real
    requires j <= |s|
  {
    TotalWeight(s[j..])
  }

  /** The weight of the first `n` samples. */
  function WeightUpTo(s: seq<Sample>, n: nat): real
    requires n <= |s|
  {
    TotalWeight(s[..n])
  }

  ghost predicate NonNegativeWeights(s: seq<Sample>) {
    forall i :: 0 <= i < |s| ==> s[i].weight >= 0.0
  }

  /** The samples carry the consecutive indices `next - |s|`, ..., `next - 1`, in order. */
  ghost predicate ConsecutiveIndices(s: seq<Sample>, next: nat) {
    |s| <= next && forall i :: 0 <= i < |s| ==> s[i].index == next - |s| + i
  }

  lemma {:induction false} TotalWeightAppend(a: seq<Sample>, b: seq<Sample>)
    ensures TotalWeight(a + b) == TotalWeight(a) + TotalWeight(b)
  {
    if a == [] {
      assert a + b == b;
    } else {
      assert (a + b)[1..] == a[1..] + b;
      TotalWeightAppend(a[1..], b);
    }
  }

  /** Removing the sample at `j` takes exactly its weight off the total. */
  lemma TotalWeightRemove(b: seq<Sample>, j: nat)
    requires j < |b|
    ensures TotalWeight(b) == b[j].weight + TotalWeight(b[..j] + b[j + 1..])
  {
    var before, after := b[..j], b[j + 1..];
    var tail := [b[j]] + after;
    assert b == before + tail;
    TotalWeightAppend(before, tail);
    assert tail[0] == b[j] && tail[1..] == after;
    assert TotalWeight(tail) == b[j].weight + TotalWeight(after);
    TotalWeightAppend(before, after);
  }

  /** Taking the head of `a` and the same sample at `j` out of `b` keeps the multisets equal. */
  lemma MultisetRemove(a: seq<Sample>, b: seq<Sample>, j: nat)
    requires a != [] && j < |b| && b[j] == a[0]
    requires multiset(a) == multiset(b)
    ensures multiset(a[1..]) == multiset(b[..j] + b[j + 1..])
  {
    assert a == [a[0]] + a[1..];
    assert b == b[..j] + [b[j]] + b[j + 1..];
    calc {
      multiset(a[1..]);
      multiset(a) - multiset{a[0]};
      multiset(b) - multiset{b[j]};
      multiset(b[..j] + b[j + 1..]);
    }
  }

  /** The total weight depends only on the multiset of samples, not on their order. */
  lemma {:induction false} TotalWeightPermutation(a: seq<Sample>, b: seq<Sample>)
    requires multiset(a) == multiset(b)
    ensures TotalWeight(a) == TotalWeight(b)
    decreases |a|
  {
    if a == [] {
      assert |b| == |multiset(b)| == 0;
    } else {
      assert a[0] in multiset(b);
      var j :| 0 <= j < |b| && b[j] == a[0];
      TotalWeightRemove(b, j);
      MultisetRemove(a, b, j);
      TotalWeightPermutation(a[1..], b[..j] + b[j + 1..]);
    }
  }

  /**
   * The eviction loop of addSample: while the total weight exceeds
   * `maxWeight`, the oldest sample goes entirely if its weight does not
   * exceed the excess, and otherwise loses exactly the excess.
   * The result is a suffix of `s` of which only the first element may have
   * lost weight; if it did, the total is exactly `maxWeight`; and every
   * sample evicted left at least `maxWeight` behind it.
   */
  function Evict(s: seq<Sample>, maxWeight: real): (r: seq<Sample>)
    ensures |r| <= |s|
    ensures r != [] ==> r[1..] == s[|s| - |r| + 1..]
    ensures r != [] ==> r[0] == s[|s| - |r|].(weight := r[0].weight)
    ensures r != [] && r[0].weight != s[|s| - |r|].weight ==>
              0.0 < r[0].weight < s[|s| - |r|].weight && TotalWeight(r) == maxWeight
    ensures TotalWeight(r) <= maxWeight || r == []
    ensures forall j :: 1 <= j <= |s| - |r| ==> WeightFrom(s, j) >= maxWeight
    decreases |s|
  {
    if s == [] || TotalWeight(s) <= maxWeight then
      s
    else
      var excess := TotalWeight(s) - maxWeight;
      if s[0].weight <= excess then
        var r := Evict(s[1..], maxWeight);
        forall j | 1 <= j <= |s| - |r|
          ensures WeightFrom(s, j) >= maxWeight
        {
          if j > 1 {
            assert s[j..] == s[1..][j - 1..];
            assert WeightFrom(s[1..], j - 1) >= maxWeight;
          } else {
            assert s == [s[0]] + s[1..];
          }
        }
        r
      else
        var r := [s[0].(weight := s[0].weight - excess)] + s[1..];
        assert r[1..] == s[1..];
        r
  }

  /** Dropping an oldest sample no heavier than the excess leaves the eventual result alone. */
  lemma EvictDrop(s: seq<Sample>, maxWeight: real)
    requires s != [] && TotalWeight(s) > maxWeight && s[0].weight <= TotalWeight(s) - maxWeight
    ensures Evict(s[1..], maxWeight) == Evict(s, maxWeight)
    ensures TotalWeight(s[1..]) == TotalWeight(s) - s[0].weight
  {
  }

  /**
   * Trimming a heavier oldest sample by the excess brings the total down to
   * exactly `maxWeight`, which is where the eviction stops.
   */
  lemma EvictTrim(s: seq<Sample>, maxWeight: real)
    requires s != [] && TotalWeight(s) > maxWeight && s[0].weight > TotalWeight(s) - maxWeight
    ensures var t := [s[0].(weight := s[0].weight - (TotalWeight(s) - maxWeight))] + s[1..];
      Evict(s, maxWeight) == t && TotalWeight(t) == maxWeight
  {
    var t := [s[0].(weight := s[0].weight - (TotalWeight(s) - maxWeight))] + s[1..];
    assert t[1..] == s[1..];
  }

  /** With a positive capacity the newest sample is never evicted entirely. */
  lemma EvictKeepsASample(s: seq<Sample>, maxWeight: real)
    requires s != [] && maxWeight > 0.0
    ensures Evict(s, maxWeight) != []
  {
    assert s[|s|..] == [];
    assert WeightFrom(s, |s|) == 0.0;
  }

  /**
   * Index of the first sample, in the order of `s`, whose cumulative weight
   * (over `s[..k+1]`) reaches `desired`, searching from `from`; `|s|` when
   * none does.
   */
  function FirstReaching(s: seq<Sample>, desired: real, from: nat): (k: nat)
    requires from <= |s|
    ensures from <= k <= |s|
    ensures k < |s| ==> WeightUpTo(s, k + 1) >= desired
    ensures forall n :: from < n <= k ==> WeightUpTo(s, n) < desired
    decreases |s| - from
  {
    if from == |s| then |s|
    else if WeightUpTo(s, from + 1) >= desired then from
    else FirstReaching(s, desired, from + 1)
  }

  /**
   * getPercentile over samples already in value order: NaN (None) when
   * there are none, otherwise the value of the first sample whose cumulative
   * weight reaches `desired`, falling back to the last (largest) value.
   */
  function PercentileOf(s: seq<Sample>, desired: real): (r: Option<real>)
    ensures r.None? <==> s == []
    ensures r.Some? ==> exists i :: 0 <= i < |s| && s[i].value == r.value
  {
    if s == [] then None
    else
      var k := FirstReaching(s, desired, 0);
      var i := if k < |s| then k else |s| - 1;
      Some(s[i].value)
  }

  /** Raising the desired weight never lowers the percentile of value-ordered samples. */
  lemma PercentileMonotone(s: seq<Sample>, d1: real, d2: real)
    requires SortedBy(s, ValueKey)
    requires s != [] && d1 <= d2
    ensures PercentileOf(s, d1).value <= PercentileOf(s, d2).value
  {
    var k1 := FirstReaching(s, d1, 0);
    var k2 := FirstReaching(s, d2, 0);
    var i1 := if k1 < |s| then k1 else |s| - 1;
    var i2 := if k2 < |s| then k2 else |s| - 1;
    if k2 < |s| {
      assert WeightUpTo(s, k2 + 1) >= d1;
    }
    assert i1 <= i2;
    assert ValueKey(s[i1]) <= ValueKey(s[i2]);
  }

  /** Two sequences with the same multiset and the same head have tails with the same multiset. */
  lemma SameHeadSameTail(a: seq<Sample>, b: seq<Sample>)
    requires a != [] && b != [] && a[0] == b[0]
    requires multiset(a) == multiset(b)
    ensures multiset(a[1..]) == multiset(b[1..])
  {
    assert a == [a[0]] + a[1..];
    assert b == [b[0]] + b[1..];
    calc {
      multiset(a[1..]);
      multiset(a) - multiset{a[0]};
      multiset(b) - multiset{b[0]};
      multiset(b[1..]);
    }
  }

  /**
   * Of two sequences with the same multiset, one ordered by index and one
   * with increasing indices, the heads agree: each is the other's least.
   */
  lemma SameHead(a: seq<Sample>, b: seq<Sample>)
    requires a != [] && SortedBy(a, IndexKey)
    requires forall i, j :: 0 <= i < j < |b| ==> b[i].index < b[j].index
    requires multiset(a) == multiset(b)
    ensures b != [] && a[0] == b[0]
  {
    assert a[0] in multiset(b);
    assert b != [] && b[0] in multiset(a);
    var j :| 0 <= j < |b| && b[j] == a[0];
    var i :| 0 <= i < |a| && a[i] == b[0];
    assert IndexKey(a[0]) <= IndexKey(a[i]);
  }

  /** A sequence ordered by index whose indices are distinct is determined by its multiset. */
  lemma {:induction false} IndexOrderUnique(a: seq<Sample>, b: seq<Sample>)
    requires SortedBy(a, IndexKey)
    requires forall i, j :: 0 <= i < j < |b| ==> b[i].index < b[j].index
    requires multiset(a) == multiset(b)
    ensures a == b
    decreases |a|
  {
    if a == [] {
      assert |b| == |multiset(b)| == 0;
    } else {
      SameHead(a, b);
      SameHeadSameTail(a, b);
      IndexOrderUnique(a[1..], b[1..]);
      assert a == [a[0]] + a[1..] && b == [b[0]] + b[1..];
    }
  }

  lemma ConsecutiveIsIncreasing(s: seq<Sample>, next: nat)
    requires ConsecutiveIndices(s, next)
    ensures forall i, j :: 0 <= i < j < |s| ==> s[i].index < s[j].index
  {
  }

  /** Appending a sample with the next index and a non-negative weight keeps the window well formed. */
  lemma AppendNext(s: seq<Sample>, next: nat, weight: real, value: real)
    requires ConsecutiveIndices(s, next) && NonNegativeWeights(s) && weight >= 0.0
    ensures ConsecutiveIndices(s + [Sample(next, weight, value)], next + 1)
    ensures NonNegativeWeights(s + [Sample(next, weight, value)])
    ensures TotalWeight(s + [Sample(next, weight, value)]) == TotalWeight(s) + weight
  {
    var newSample := Sample(next, weight, value);
    TotalWeightAppend(s, [newSample]);
    assert TotalWeight([newSample]) == weight by {
      assert [newSample][1..] == [];
    }
  }

  /**
   * Eviction keeps the survivors a suffix of insertion order, with
   * consecutive indices ending at the newest, and weights non-negative.
   */
  lemma EvictKeepsSuffix(s: seq<Sample>, maxWeight: real, next: nat)
    requires ConsecutiveIndices(s, next) && NonNegativeWeights(s)
    ensures ConsecutiveIndices(Evict(s, maxWeight), next)
    ensures NonNegativeWeights(Evict(s, maxWeight))
  {
    var r := Evict(s, maxWeight);
    forall i | 0 <= i < |r|
      ensures r[i].index == next - |r| + i && r[i].weight >= 0.0
    {
      var k := |s| - |r|;
      if i > 0 {
        assert r[i] == r[1..][i - 1] == s[k + 1..][i - 1];
      }
    }
  }

  /**
   * The eviction loop of addSample over the samples in index order and
   * their running total.
   */
  method EvictOldest(s: seq<Sample>, total: real, maxWeight: real) returns (held: seq<Sample>, newTotal: real)
    requires total == TotalWeight(s)
    ensures held == Evict(s, maxWeight)
    ensures newTotal == TotalWeight(held)
  {
    held, newTotal := s, total;
    while newTotal > maxWeight && |held| > 0
      invariant newTotal == TotalWeight(held)
      invariant Evict(held, maxWeight) == Evict(s, maxWeight)
      decreases |held|, if newTotal > maxWeight then 1 else 0
    {
      var excessWeight := newTotal - maxWeight;
      var oldestSample := held[0];
      if oldestSample.weight <= excessWeight {
        EvictDrop(held, maxWeight);
        newTotal := newTotal - oldestSample.weight;
        held := held[1..];
      } else {
        EvictTrim(held, maxWeight);
        held := [oldestSample.(weight := oldestSample.weight - excessWeight)] + held[1..];
        newTotal := newTotal - excessWeight;
        assert Evict(held, maxWeight) == held;
      }
    }
  }

  class SlidingPercentile {
    const maxWeight: real
    /** The samples, in whatever order the last sort left them. */
    var samples: seq<Sample>
    var sortOrder: SortOrder
    var nextSampleIndex: nat
    var totalWeight: real
    /** The samples held, in insertion (index) order. */
    ghost var window: seq<Sample>

    ghost predicate Valid()
      reads this
    {
      && totalWeight == TotalWeight(window)
      && NonNegativeWeights(window)
      && ConsecutiveIndices(window, nextSampleIndex)
      && (totalWeight <= maxWeight || window == [])
      && multiset(samples) == multiset(window)
      && (sortOrder == Unsorted ==> samples == [])
      && (sortOrder == ByIndex ==> samples == window)
      && (sortOrder == ByValue ==> SortedBy(samples, ValueKey))
    }

    constructor (maxWeight: real)
      ensures Valid()
      ensures this.maxWeight == maxWeight
      ensures samples == [] && window == [] && sortOrder == Unsorted
      ensures nextSampleIndex == 0 && totalWeight == 0.0
    {
      this.maxWeight := maxWeight;
      samples := [];
      sortOrder := Unsorted;
      nextSampleIndex := 0;
      totalWeight := 0.0;
      window := [];
    }

    /** Empties the window; the capacity is kept. */
    method Reset()
      modifies this
      ensures Valid()
      ensures samples == [] && window == [] && sortOrder == Unsorted
      ensures nextSampleIndex == 0 && totalWeight == 0.0
    {
      samples := [];
      sortOrder := Unsorted;
      nextSampleIndex := 0;
      totalWeight := 0.0;
      window := [];
    }

    /** Sorts the samples by index unless they already are. */
    method EnsureSortedByIndex()
      requires Valid()
      modifies this`samples, this`sortOrder
      ensures Valid()
      ensures samples == window && sortOrder == ByIndex
    {
      if sortOrder != ByIndex {
        var sorted := SortBy(samples, IndexKey);
        ConsecutiveIsIncreasing(window, nextSampleIndex);
        IndexOrderUnique(sorted, window);
        samples := sorted;
        sortOrder := ByIndex;
      }
    }

    /** Sorts the samples by value unless they already are. */
    method EnsureSortedByValue()
      requires Valid()
      modifies this`samples, this`sortOrder
      ensures Valid()
      ensures sortOrder == ByValue && multiset(samples) == multiset(old(samples))
      ensures samples == if old(sortOrder) == ByValue then old(samples) else SortBy(old(samples), ValueKey)
    {
      if sortOrder != ByValue {
        samples := SortBy(samples, ValueKey);
        sortOrder := ByValue;
      }
    }

    /**
     * Appends a sample with the next index and then evicts weight from the
     * oldest samples until the total is within the capacity.
     */
    method AddSample(weight: real, value: real)
      requires Valid() && weight >= 0.0
      modifies this
      ensures Valid()
      ensures window == Evict(old(window) + [Sample(old(nextSampleIndex), weight, value)], maxWeight)
      ensures samples == window && sortOrder == ByIndex
      ensures nextSampleIndex == old(nextSampleIndex) + 1
    {
      EnsureSortedByIndex();
      var appended := samples + [Sample(nextSampleIndex, weight, value)];
      AppendNext(samples, nextSampleIndex, weight, value);
      var held, total := EvictOldest(appended, totalWeight + weight, maxWeight);
      EvictKeepsSuffix(appended, maxWeight, nextSampleIndex + 1);
      nextSampleIndex := nextSampleIndex + 1;
      samples, totalWeight, window := held, total, held;
    }

    /**
     * The percentile by integration: sorts the samples by value, then returns
     * the value of the first whose cumulative weight reaches
     * `percentile * totalWeight`, or the largest value, or NaN (None) when
     * the window is empty.
     */
    method GetPercentile(percentile: real) returns (r: Option<real>)
      requires Valid()
      modifies this`samples, this`sortOrder
      ensures Valid()
      ensures window == old(window) && totalWeight == old(totalWeight)
      ensures multiset(samples) == multiset(old(samples)) && sortOrder == ByValue
      ensures r == PercentileOf(samples, percentile * totalWeight)
    {
      EnsureSortedByValue();
      r := Integrate(percentile);
    }

    /** The integration over the samples as they stand. */
    method Integrate(percentile: real) returns (r: Option<real>)
      ensures r == PercentileOf(samples, percentile * totalWeight)
    {
      r := IntegrateWeights(samples, percentile * totalWeight);
    }
  }

  /**
   * The accumulating loop of getPercentile: walks `sorted` adding up
   * weights and stops at the first sample whose cumulative weight reaches
   * `desiredWeight`.
   */
  method IntegrateWeights(sorted: seq<Sample>, desiredWeight: real) returns (r: Option<real>)
    ensures r == PercentileOf(sorted, desiredWeight)
  {
    var accumulatedWeight := 0.0;
    var i := 0;
    while i < |sorted|
      invariant 0 <= i <= |sorted|
      invariant accumulatedWeight == WeightUpTo(sorted, i)
      invariant FirstReaching(sorted, desiredWeight, 0) == FirstReaching(sorted, desiredWeight, i)
    {
      TotalWeightAppend(sorted[..i], [sorted[i]]);
      assert sorted[..i + 1] == sorted[..i] + [sorted[i]];
      assert TotalWeight([sorted[i]]) == sorted[i].weight by {
        assert [sorted[i]][1..] == [];
      }
      accumulatedWeight := accumulatedWeight + sorted[i].weight;
      if accumulatedWeight >= desiredWeight {
        return Some(sorted[i].value);
      }
      i := i + 1;
    }
    r := if |sorted| == 0 then None else Some(sorted[|sorted| - 1].value);
  }

  /** In a valid window the samples held weigh `totalWeight` in total, whatever their order. */
  lemma TotalWeightOfSamples(w: SlidingPercentile)
    requires w.Valid()
    ensures TotalWeight(w.samples) == w.totalWeight
    ensures w.totalWeight >= 0.0
  {
    TotalWeightPermutation(w.samples, w.window);
    NonNegativeTotal(w.window);
  }

  lemma {:induction false} NonNegativeTotal(s: seq<Sample>)
    requires NonNegativeWeights(s)
    ensures TotalWeight(s) >= 0.0
  {
    if s != [] {
      NonNegativeTotal(s[1..]);
    }
  }
}
