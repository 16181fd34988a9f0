/**
 * The pure decision rules of the low-latency ABR manager: the restriction
 * filter and ascending sort of variants, the banded (hysteresis) choice by
 * estimated bandwidth, the one-step ratchets used without an estimate, the
 * backoff delay computed with a JavaScript 32-bit shift, and the bounded
 * first-in first-out log of processed segment URIs.
 *
 * Bandwidths, rates and estimates are exact reals; IEEE-754 rounding is not
 * modelled, and the only infinity the source uses (the missing upper
 * neighbour of the highest variant) is written out case by case.
 */
module AbrDecisions {
  import opened Wrappers
  import opened Sorting
  import opened JsInt

  /** A selectable variant. `id` stands for the object's identity. */
  datatype Variant = Variant(id: nat, bandwidth: real)

  function BandwidthKey(v: Variant): real { v.bandwidth }

  /**
   * The restrictions the manager is configured with, applied through the
   * player's restriction check: `None` is a null `restrictions`.
   */
  type Restrictions = Option<Variant -> bool>

  predicate Meets(restrictions: Restrictions, v: Variant) {
    restrictions.None? || restrictions.value(v)
  }

  /** `Array.prototype.filter` with the restriction check as predicate. */
  function Filter(meets: Variant -> bool, s: seq<Variant>): (r: seq<Variant>)
    ensures forall v :: multiset(r)[v] == if meets(v) then multiset(s)[v] else 0
    ensures |r| <= |s|
  {
    if s == [] then []
    else
      var rest := Filter(meets, s[1..]);
      assert s == [s[0]] + s[1..];
      (if meets(s[0]) then [s[0]] else []) + rest
  }

  /**
   * The variants meeting the restrictions (every variant when there are
   * none), each as often as in `variants`, in ascending, stable order of
   * bandwidth.
   */
  function FilterAndSortVariants(restrictions: Restrictions, variants: seq<Variant>): seq<Variant> {
    var kept := if restrictions.Some? then Filter(restrictions.value, variants) else variants;
    SortBy(kept, BandwidthKey)
  }

  /** The filtered list is sorted and holds each variant meeting the restrictions as often as `variants` does, and no other. */
  lemma FilterAndSortFacts(restrictions: Restrictions, variants: seq<Variant>)
    ensures var r := FilterAndSortVariants(restrictions, variants);
      && SortedBy(r, BandwidthKey)
      && forall v :: multiset(r)[v] == if Meets(restrictions, v) then multiset(variants)[v] else 0
  {
    var kept := if restrictions.Some? then Filter(restrictions.value, variants) else variants;
    assert multiset(SortBy(kept, BandwidthKey)) == multiset(kept);
  }

  /** A variant is kept by the filter and sort exactly when it is offered and meets the restrictions. */
  lemma FilteredMembership(restrictions: Restrictions, variants: seq<Variant>)
    ensures forall v :: v in FilterAndSortVariants(restrictions, variants) <==> v in variants && Meets(restrictions, v)
  {
    var sorted := FilterAndSortVariants(restrictions, variants);
    forall v ensures v in sorted <==> v in variants && Meets(restrictions, v) {
      assert v in sorted <==> multiset(sorted)[v] > 0;
      assert v in variants <==> multiset(variants)[v] > 0;
    }
  }

  /** Without restrictions the first sorted variant is offered and has the lowest bandwidth. */
  lemma LowestFirst(variants: seq<Variant>)
    requires variants != []
    ensures var all := FilterAndSortVariants(None, variants);
      && all != [] && all[0] in variants
      && forall v :: v in variants ==> all[0].bandwidth <= v.bandwidth
  {
    var all := FilterAndSortVariants(None, variants);
    FilteredMembership(None, variants);
    assert variants[0] in all;
    forall v | v in variants ensures all[0].bandwidth <= v.bandwidth {
      var j :| 0 <= j < |all| && all[j] == v;
    }
  }

  /**
   * The list `chooseVariant` chooses from: the filtered and sorted variants,
   * or, when there are variants but none meets the restrictions, the single
   * lowest-bandwidth variant.
   */
  function Candidates(restrictions: Restrictions, variants: seq<Variant>): seq<Variant> {
    var sorted := FilterAndSortVariants(restrictions, variants);
    if |variants| > 0 && |sorted| == 0 then
      LowestFirst(variants);
      [FilterAndSortVariants(None, variants)[0]]
    else
      sorted
  }

  /** The candidates are sorted, offered variants, and there are some exactly when variants are offered. */
  lemma CandidatesOffered(restrictions: Restrictions, variants: seq<Variant>)
    ensures var r := Candidates(restrictions, variants);
      && SortedBy(r, BandwidthKey)
      && (|r| > 0 <==> |variants| > 0)
      && (forall v :: v in r ==> v in variants)
  {
    FilteredMembership(restrictions, variants);
    var sorted := FilterAndSortVariants(restrictions, variants);
    if |variants| > 0 && |sorted| == 0 {
      LowestFirst(variants);
    }
  }

  /** When some variant meets the restrictions, the candidates are the filtered and sorted list. */
  lemma CandidatesWhenSomeMeets(restrictions: Restrictions, variants: seq<Variant>, v: Variant)
    requires v in variants && Meets(restrictions, v)
    ensures Candidates(restrictions, variants) == FilterAndSortVariants(restrictions, variants)
  {
    FilteredMembership(restrictions, variants);
  }

  /** When variants are offered but none meets the restrictions, the lowest one is the only candidate. */
  lemma CandidatesWhenNoneMeets(restrictions: Restrictions, variants: seq<Variant>)
    requires |variants| > 0 && forall v :: v in variants ==> !Meets(restrictions, v)
    ensures var r := Candidates(restrictions, variants);
      |r| == 1 && r[0] in variants && forall v :: v in variants ==> r[0].bandwidth <= v.bandwidth
  {
    FilteredMembership(restrictions, variants);
    var sorted := FilterAndSortVariants(restrictions, variants);
    forall v ensures multiset(sorted)[v] == 0 {
      if Meets(restrictions, v) {
        assert v !in variants;
      }
    }
    assert multiset(sorted) == multiset{};
    LowestFirst(variants);
  }

  /** The playback rate the manager was told about; `NotANumber` is NaN. */
  datatype PlaybackRate = Rate(value: real) | NotANumber

  /** The factor applied to bandwidths: the absolute rate, or 1 for NaN. */
  function EffectiveRate(rate: PlaybackRate): (r: real)
    ensures r >= 0.0
    ensures rate.Rate? ==> r == rate.value || r == -rate.value
    ensures rate.NotANumber? ==> r == 1.0
  {
    if rate.NotANumber? then 1.0
    else if rate.value < 0.0 then -rate.value
    else rate.value
  }

  /**
   * Variant `i` of `s` is in band for estimate `est`: the estimate is at
   * least `rate * bw[i] / down` and at most `rate * bw[i+1] / up`. For the
   * highest variant the upper bound is `rate * Infinity / up`, which the
   * estimate stays below unless the rate is 0 (0 * Infinity is NaN).
   */
  predicate InBand(s: seq<Variant>, i: int, est: real, rate: real, down: real, up: real)
    requires 0 <= i < |s| && down > 0.0 && up > 0.0
  {
    && est >= rate * s[i].bandwidth / down
    && if i + 1 < |s| then est <= rate * s[i + 1].bandwidth / up else rate != 0.0
  }

  /** The last index below `n` whose variant is in band, or -1. */
  function LastInBand(s: seq<Variant>, est: real, rate: real, down: real, up: real, n: nat): (k: int)
    requires n <= |s| && down > 0.0 && up > 0.0
    ensures -1 <= k < n
    ensures k >= 0 ==> InBand(s, k, est, rate, down, up)
    ensures forall j :: k < j < n ==> !InBand(s, j, est, rate, down, up)
  {
    if n == 0 then -1
    else if InBand(s, n - 1, est, rate, down, up) then n - 1
    else LastInBand(s, est, rate, down, up, n - 1)
  }

  /**
   * `chooseVariantByBandwidth_`: the last variant, walking upwards, whose
   * band holds the estimate; the lowest variant when none does; nothing for
   * an empty list.
   */
  function ChooseByBandwidth(s: seq<Variant>, est: real, rate: real, down: real, up: real): (r: Option<Variant>)
    requires down > 0.0 && up > 0.0
    ensures r.None? <==> s == []
    ensures r.Some? ==> r.value in s
  {
    if s == [] then None
    else
      var k := LastInBand(s, est, rate, down, up, |s|);
      Some(s[if k < 0 then 0 else k])
  }

  /** The scan of `chooseVariantByBandwidth_`, a loop over a local `chosen`. */
  method ChooseVariantByBandwidth(sorted: seq<Variant>, est: real, rate: real, down: real, up: real)
    returns (chosen: Option<Variant>)
    requires down > 0.0 && up > 0.0
    ensures chosen == ChooseByBandwidth(sorted, est, rate, down, up)
  {
    chosen := if |sorted| > 0 then Some(sorted[0]) else None;
    var i := 0;
    while i < |sorted|
      invariant 0 <= i <= |sorted|
      invariant chosen == if sorted == [] then None
                          else var k := LastInBand(sorted, est, rate, down, up, i); Some(sorted[if k < 0 then 0 else k])
    {
      var minBandwidth := rate * sorted[i].bandwidth / down;
      // The upper bound of the highest variant is rate * Infinity / up.
      var belowMax := if i + 1 < |sorted| then est <= rate * sorted[i + 1].bandwidth / up else rate != 0.0;
      if est >= minBandwidth && belowMax {
        chosen := Some(sorted[i]);
      }
      i := i + 1;
    }
  }

  /** A variant at or above index `j` whose bandwidth the estimate covers forces a band at or above `j`. */
  lemma {:induction false} AffordableHasBandAbove(s: seq<Variant>, est: real, j: nat)
    requires SortedBy(s, BandwidthKey)
    requires j < |s| && s[j].bandwidth <= est
    ensures LastInBand(s, est, 1.0, 1.0, 1.0, |s|) >= j
    decreases |s| - j
  {
    if !InBand(s, j, est, 1.0, 1.0, 1.0) {
      assert j + 1 < |s| && est > s[j + 1].bandwidth;
      AffordableHasBandAbove(s, est, j + 1);
    }
  }

  /**
   * With both targets and the rate equal to 1 the banded choice is the
   * highest variant whose bandwidth is at most the estimate, and the lowest
   * variant when there is none.
   */
  lemma UnitTargetsPickHighestAffordable(s: seq<Variant>, est: real)
    requires SortedBy(s, BandwidthKey) && s != []
    ensures var r := ChooseByBandwidth(s, est, 1.0, 1.0, 1.0).value;
      && ((exists v :: v in s && v.bandwidth <= est) ==>
            r.bandwidth <= est && forall v :: v in s && v.bandwidth <= est ==> v.bandwidth <= r.bandwidth)
      && ((forall v :: v in s ==> v.bandwidth > est) ==> r == s[0])
  {
    var k := LastInBand(s, est, 1.0, 1.0, 1.0, |s|);
    forall v | v in s && v.bandwidth <= est
      ensures k >= 0 && v.bandwidth <= s[k].bandwidth
    {
      var j :| 0 <= j < |s| && s[j] == v;
      AffordableHasBandAbove(s, est, j);
    }
    if k >= 0 {
      assert s[k].bandwidth <= est;
    }
  }

  /** The three-variant examples of the banded choice with unit targets. */
  lemma HysteresisExamples()
    ensures var s := [Variant(0, 100.0), Variant(1, 500.0), Variant(2, 1000.0)];
      && ChooseByBandwidth(s, 100.0, 1.0, 1.0, 1.0) == Some(Variant(0, 100.0))
      && ChooseByBandwidth(s, 500.0, 1.0, 1.0, 1.0) == Some(Variant(1, 500.0))
      && ChooseByBandwidth(s, 1000.0, 1.0, 1.0, 1.0) == Some(Variant(2, 1000.0))
  {
    var s := [Variant(0, 100.0), Variant(1, 500.0), Variant(2, 1000.0)];
    assert InBand(s, 0, 100.0, 1.0, 1.0, 1.0);
    assert InBand(s, 1, 500.0, 1.0, 1.0, 1.0) && !InBand(s, 2, 500.0, 1.0, 1.0, 1.0);
    assert InBand(s, 2, 1000.0, 1.0, 1.0, 1.0);
  }

  /** Targets of 1.2 on both sides: an estimate of 600000 picks the 500000 variant. */
  lemma AsymmetricTargetsExample()
    ensures ChooseByBandwidth([Variant(0, 100000.0), Variant(1, 500000.0), Variant(2, 1200000.0)],
                              600000.0, 1.0, 1.2, 1.2) == Some(Variant(1, 500000.0))
  {
    var s := [Variant(0, 100000.0), Variant(1, 500000.0), Variant(2, 1200000.0)];
    assert !InBand(s, 2, 600000.0, 1.0, 1.2, 1.2);
    assert InBand(s, 1, 600000.0, 1.0, 1.2, 1.2);
  }

  /** The first index at or after `from` whose bandwidth exceeds `current`, or `|s|`. */
  function FirstAbove(s: seq<Variant>, current: real, from: nat): (i: nat)
    requires from <= |s|
    ensures from <= i <= |s|
    ensures i < |s| ==> s[i].bandwidth > current
    ensures forall j :: from <= j < i ==> s[j].bandwidth <= current
    decreases |s| - from
  {
    if from == |s| || s[from].bandwidth > current then from
    else FirstAbove(s, current, from + 1)
  }

  /** The last index below `n` whose bandwidth is under `current`, or -1. */
  function LastBelow(s: seq<Variant>, current: real, n: nat): (j: int)
    requires n <= |s|
    ensures -1 <= j < n
    ensures j >= 0 ==> s[j].bandwidth < current
    ensures forall k :: j < k < n ==> s[k].bandwidth >= current
  {
    if n == 0 then -1
    else if s[n - 1].bandwidth < current then n - 1
    else LastBelow(s, current, n - 1)
  }

  /** `chooseNextHigherBandwidthVariant_`: the first variant above `current`, else the highest. */
  function NextHigher(s: seq<Variant>, current: real): (r: Option<Variant>)
    ensures r.None? <==> s == []
    ensures r.Some? ==> r.value in s
  {
    if s == [] then None
    else
      var i := FirstAbove(s, current, 0);
      Some(s[if i < |s| then i else |s| - 1])
  }

  /** `chooseNextLowerBandwidthVariant_`: scanning down, the first variant under `current`, else the lowest. */
  function NextLower(s: seq<Variant>, current: real): (r: Option<Variant>)
    ensures r.None? <==> s == []
    ensures r.Some? ==> r.value in s
  {
    if s == [] then None
    else
      var j := LastBelow(s, current, |s|);
      Some(s[if j < 0 then 0 else j])
  }

  /**
   * The upward ratchet moves exactly one step: to the lowest variant above
   * the current bitrate, and to the highest variant when none is above.
   */
  lemma RatchetUpIsOneStep(s: seq<Variant>, current: real)
    requires SortedBy(s, BandwidthKey) && s != []
    ensures var r := NextHigher(s, current).value;
      && r in s
      && ((exists v :: v in s && v.bandwidth > current) ==>
            r.bandwidth > current && forall v :: v in s && v.bandwidth > current ==> r.bandwidth <= v.bandwidth)
      && ((forall v :: v in s ==> v.bandwidth <= current) ==> r == s[|s| - 1])
  {
    var i := FirstAbove(s, current, 0);
    forall v | v in s && v.bandwidth > current
      ensures i < |s| && s[i].bandwidth <= v.bandwidth
    {
      var j :| 0 <= j < |s| && s[j] == v;
      assert i <= j;
    }
  }

  /**
   * The downward ratchet moves exactly one step: to the highest variant
   * under the current bitrate, and to the lowest variant when none is under.
   */
  lemma RatchetDownIsOneStep(s: seq<Variant>, current: real)
    requires SortedBy(s, BandwidthKey) && s != []
    ensures var r := NextLower(s, current).value;
      && r in s
      && ((exists v :: v in s && v.bandwidth < current) ==>
            r.bandwidth < current && forall v :: v in s && v.bandwidth < current ==> v.bandwidth <= r.bandwidth)
      && ((forall v :: v in s ==> v.bandwidth >= current) ==> r == s[0])
  {
    var j := LastBelow(s, current, |s|);
    forall v | v in s && v.bandwidth < current
      ensures j >= 0 && v.bandwidth <= s[j].bandwidth
    {
      var k :| 0 <= k < |s| && s[k] == v;
      assert k <= j;
    }
  }

  /** Current bitrate 500 among 100, 500 and 1000: up gives 1000, down gives 100. */
  lemma RatchetExamples()
    ensures var s := [Variant(0, 100.0), Variant(1, 500.0), Variant(2, 1000.0)];
      && NextHigher(s, 500.0) == Some(Variant(2, 1000.0))
      && NextLower(s, 500.0) == Some(Variant(0, 100.0))
  {
    var s := [Variant(0, 100.0), Variant(1, 500.0), Variant(2, 1000.0)];
    assert FirstAbove(s, 500.0, 0) == 2;
    assert LastBelow(s, 500.0, |s|) == 0;
  }

  /** How many variants the downward scan examines before it stops. */
  function DownScanLength(s: seq<Variant>, current: real): (n: nat)
    ensures n <= |s|
    ensures s != [] ==> n >= 1
  {
    var j := LastBelow(s, current, |s|);
    |s| - (if j < 0 then 0 else j)
  }

  /**
   * The failure counter after the upward scan: every iteration resets it
   * when the previous switch was an increase.
   */
  function CounterAfterUpScan(s: seq<Variant>, counter: nat, previousIncrease: bool): (r: nat)
    ensures r <= counter
    ensures previousIncrease && s != [] ==> r == 0
    ensures !previousIncrease || s == [] ==> r == counter
  {
    if previousIncrease && s != [] then 0 else counter
  }

  /**
   * The failure counter after the downward scan: every variant examined adds
   * one when the previous switch was an increase, and resets it otherwise.
   */
  function CounterAfterDownScan(s: seq<Variant>, current: real, counter: nat, previousIncrease: bool): (r: nat)
    ensures previousIncrease ==> r == counter + DownScanLength(s, current)
    ensures !previousIncrease && s != [] ==> r == 0
  {
    var n := DownScanLength(s, current);
    if n == 0 then counter
    else if previousIncrease then counter + n
    else 0
  }

  /** The base delay, in seconds, of the increase-bitrate timer. */
  const INCREASE_VIDEO_BITRATE_DELAY: int := 10

  /** The re-arm delay `10 << counter` of the increase-bitrate timer. */
  function IncreaseDelay(counter: nat): (d: int)
    ensures -TWO_31 <= d < TWO_31
  {
    JsShiftLeft(INCREASE_VIDEO_BITRATE_DELAY, counter)
  }

  /** Up to 27 failures the delay is the base delay times 2^counter. */
  lemma BackoffDoubles(counter: nat)
    requires counter <= 27
    ensures IncreaseDelay(counter) == INCREASE_VIDEO_BITRATE_DELAY * Pow2(counter)
    ensures counter >= 1 ==> IncreaseDelay(counter) == 2 * IncreaseDelay(counter - 1)
  {
    Pow2Monotone(counter, 27);
    Pow2Values();
    var p := Pow2(counter);
    assert counter % 32 == counter;
    assert ToInt32(INCREASE_VIDEO_BITRATE_DELAY) == 10;
    assert 0 < 10 * p <= 10 * 0x800_0000 < TWO_31;
    assert IncreaseDelay(counter) == ToInt32(10 * p) == 10 * p;
    if counter >= 1 {
      assert p == 2 * Pow2(counter - 1);
      assert (counter - 1) % 32 == counter - 1;
      assert IncreaseDelay(counter - 1) == ToInt32(10 * Pow2(counter - 1)) == 10 * Pow2(counter - 1);
    }
  }

  /** Two failures give four times the base delay. */
  lemma BackoffExample()
    ensures IncreaseDelay(2) == 40
  {
    BackoffDoubles(2);
  }

  /** From 28 failures on the 32-bit shift wraps: negative, zero, then the base delay again. */
  lemma BackoffWraps()
    ensures IncreaseDelay(28) == -1610612736
    ensures IncreaseDelay(31) == 0
    ensures IncreaseDelay(32) == INCREASE_VIDEO_BITRATE_DELAY
  {
    Pow2Values();
    assert ToInt32(INCREASE_VIDEO_BITRATE_DELAY) == 10;
    assert IncreaseDelay(28) == ToInt32(10 * 0x1000_0000) by {
      assert 28 % 32 == 28;
    }
    assert 0xA000_0000 % TWO_32 == 0xA000_0000;
    assert IncreaseDelay(31) == ToInt32(10 * 0x8000_0000) by {
      assert 31 % 32 == 31;
    }
    assert 0x5_0000_0000 % TWO_32 == 0;
    assert IncreaseDelay(32) == ToInt32(10 * Pow2(0)) by {
      assert 32 % 32 == 0;
    }
  }

  /** The capacity of the processed-URI log. */
  const MAX_PROCESSED_URI_COUNT: nat := 100

  /** `processedUris` with the set `processedUriSet` kept beside it. */
  datatype UriLog = UriLog(list: seq<string>, members: set<string>)

  /** One iteration of `segmentDownloadCompleted`: push and add, then shift and delete past capacity. */
  function Admit(log: UriLog, uri: string): (r: UriLog)
    ensures r.list != [] && r.list[|r.list| - 1] == uri
    ensures uri !in r.members ==> |log.list| >= MAX_PROCESSED_URI_COUNT && log.list[0] == uri
    ensures |log.list| < MAX_PROCESSED_URI_COUNT ==> r == UriLog(log.list + [uri], log.members + {uri})
    ensures |log.list| == MAX_PROCESSED_URI_COUNT ==> |r.list| == MAX_PROCESSED_URI_COUNT && r.list == (log.list + [uri])[1..]
    ensures |log.list| == MAX_PROCESSED_URI_COUNT ==> r.members == (log.members + {uri}) - {log.list[0]}
  {
    var list := log.list + [uri];
    var members := log.members + {uri};
    if |list| > MAX_PROCESSED_URI_COUNT then UriLog(list[1..], members - {list[0]})
    else UriLog(list, members)
  }

  /** `uris` admitted one after another. */
  function AdmitAll(log: UriLog, uris: seq<string>): (r: UriLog)
    ensures |log.list| + |uris| <= MAX_PROCESSED_URI_COUNT ==> r.list == log.list + uris
  {
    if uris == [] then log
    else Admit(AdmitAll(log, uris[..|uris| - 1]), uris[|uris| - 1])
  }

  /** The log is within capacity and its set holds only listed URIs. */
  ghost predicate LogInvariant(log: UriLog) {
    && |log.list| <= MAX_PROCESSED_URI_COUNT
    && forall u :: u in log.members ==> u in log.list
  }

  /** Every element of `s` is distinct. */
  ghost predicate Distinct(s: seq<string>) {
    forall i, j :: 0 <= i < j < |s| ==> s[i] != s[j]
  }

  /** The last (at most) `MAX_PROCESSED_URI_COUNT` elements of `s`. */
  function Newest(s: seq<string>): (r: seq<string>)
    ensures |r| <= MAX_PROCESSED_URI_COUNT
  {
    if |s| <= MAX_PROCESSED_URI_COUNT then s else s[|s| - MAX_PROCESSED_URI_COUNT..]
  }

  /** Admitting keeps the log within capacity, with its set inside its list. */
  lemma {:induction false} AdmitAllKeepsInvariant(log: UriLog, uris: seq<string>)
    requires LogInvariant(log)
    ensures LogInvariant(AdmitAll(log, uris))
    decreases |uris|
  {
    if uris != [] {
      var prev := AdmitAll(log, uris[..|uris| - 1]);
      AdmitAllKeepsInvariant(log, uris[..|uris| - 1]);
      var uri := uris[|uris| - 1];
      var list := prev.list + [uri];
      var next := Admit(prev, uri);
      forall u | u in next.members ensures u in next.list {
        assert u in list;
        if |list| > MAX_PROCESSED_URI_COUNT {
          var k :| 0 <= k < |list| && list[k] == u;
          assert k != 0;
          assert list[1..][k - 1] == u;
        }
      }
    }
  }

  /** The list always holds the newest URIs admitted, duplicates or not. */
  lemma {:induction false} AdmitAllKeepsNewest(log: UriLog, uris: seq<string>)
    requires |log.list| <= MAX_PROCESSED_URI_COUNT
    ensures AdmitAll(log, uris).list == Newest(log.list + uris)
    decreases |uris|
  {
    if uris == [] {
      assert log.list + uris == log.list;
    } else {
      var init := uris[..|uris| - 1];
      AdmitAllKeepsNewest(log, init);
      var x := log.list + init;
      var y := log.list + uris;
      assert y == x + [uris[|uris| - 1]];
      var m := if |x| <= MAX_PROCESSED_URI_COUNT then 0 else |x| - MAX_PROCESSED_URI_COUNT;
      assert Newest(x) + [uris[|uris| - 1]] == y[m..];
    }
  }

  /** The list has distinct URIs and the set holds exactly them. */
  ghost predicate InSync(log: UriLog) {
    && Distinct(log.list)
    && forall u :: u in log.members <==> u in log.list
  }

  /**
   * With distinct URIs throughout, the set always equals the URIs of the
   * list, which are the newest admitted.
   */
  lemma {:induction false} DistinctUrisStayInSync(log: UriLog, uris: seq<string>)
    requires |log.list| <= MAX_PROCESSED_URI_COUNT && InSync(log)
    requires Distinct(log.list + uris)
    ensures InSync(AdmitAll(log, uris))
    decreases |uris|
  {
    if uris != [] {
      var init := uris[..|uris| - 1];
      var uri := uris[|uris| - 1];
      assert log.list + uris == (log.list + init) + [uri];
      assert Distinct(log.list + init) by {
        assert forall i :: 0 <= i < |log.list + init| ==> (log.list + init)[i] == (log.list + uris)[i];
      }
      DistinctUrisStayInSync(log, init);
      AdmitAllKeepsNewest(log, init);
      var prev := AdmitAll(log, init);
      var x := log.list + init;
      var m := |x| - |prev.list|;
      assert prev.list == x[m..];
      forall k | 0 <= k < |prev.list| ensures prev.list[k] != uri {
        assert prev.list[k] == (log.list + uris)[m + k];
        assert m + k < |x| && (log.list + uris)[|x|] == uri;
      }
      AdmitFreshKeepsSync(prev, uri);
    }
  }

  /** Admitting a URI not yet listed keeps the list distinct and the set equal to it. */
  lemma AdmitFreshKeepsSync(prev: UriLog, uri: string)
    requires InSync(prev) && uri !in prev.list
    ensures InSync(Admit(prev, uri))
  {
    var list := prev.list + [uri];
    assert Distinct(list);
    if |list| > MAX_PROCESSED_URI_COUNT {
      assert Distinct(list[1..]);
      forall u | u in list && u != list[0] ensures u in list[1..] {
        var k :| 0 <= k < |list| && list[k] == u;
        assert list[1..][k - 1] == u;
      }
      forall u | u in list[1..] ensures u != list[0] {
        var k :| 0 <= k < |list[1..]| && list[1..][k] == u;
        assert list[k + 1] == u;
      }
    }
  }

  /**
   * A URI admitted again while its older copy is the oldest entry of a full
   * log is listed but no longer in the set: the shift deletes it from the
   * set although its newer copy stays.
   */
  lemma DuplicateLeavesSetBehind(log: UriLog, uri: string)
    requires |log.list| == MAX_PROCESSED_URI_COUNT && log.list[0] == uri
    ensures uri in Admit(log, uri).list
    ensures uri !in Admit(log, uri).members
  {
    var list := log.list + [uri];
    assert list[1..][|list| - 2] == uri;
  }
}
