/**
 * The low-latency ABR manager. Its decisions are stated as pure step
 * functions over a snapshot of the manager's fields (`AbrState`); the class
 * `SimpleLLAbrManager` keeps those fields, updates them in place as the
 * source does and is proved to follow the step functions.
 *
 * The surroundings become inputs: the clock reading (`now`, in
 * milliseconds), the network hint (`downlink`, megabits per second), the
 * live-edge classification of a segment, the service description and the
 * presentation latencies. Timers are pending delays, in seconds: arming
 * one sets it, stopping it clears it. The switch callback is a flag, and the
 * calls made to it are recorded in the ghost `switches`.
 */
module SimpleLLAbr {
  import opened Wrappers
  import opened AbrDecisions
  import opened BandwidthEstimation
  import SlidingPercentileWindow

  /** Seconds after a stall at which the stall count is reset. */
  const RESET_STALL_COUNT_DELAY: real := 30.0
  /** Seconds of buffering after which the bitrate is decreased. */
  const BUFFERING_TIME_TO_DECREASE_BITRATE: real := 0.5
  /** Seconds after which a suggestion deferred by buffering is retried. */
  const SUGGEST_STREAM_RETRY_DELAY: real := 0.1

  /** The part of the player's ABR configuration the manager reads. */
  datatype AbrConfig = AbrConfig(
    restrictions: Restrictions,
    bandwidthUpgradeTarget: real,
    bandwidthDowngradeTarget: real,
    defaultBandwidthEstimate: real,
    switchInterval: real,
    stallCountToDowngrade: real,
    useNetworkInformation: bool)

  predicate PositiveTargets(config: AbrConfig) {
    config.bandwidthUpgradeTarget > 0.0 && config.bandwidthDowngradeTarget > 0.0
  }

  /** The target latency of a service description; `max` may be absent. */
  datatype LatencyTarget = LatencyTarget(max: Option<real>)
  /** A service description; its `latency` may be absent. */
  datatype ServiceDescription = ServiceDescription(latency: Option<LatencyTarget>)

  /** What the estimator answers at the time of a decision. */
  datatype Estimate = Estimate(good: bool, bitsPerSecond: real)

  /** How a call ends: normally, or with the TypeError a null dereference throws. */
  datatype Outcome = Returned | ThrewTypeError

  /**
   * The manager's own fields that its decisions read or write; the
   * estimator, the configuration and the processed-URI log are kept apart.
   */
  datatype AbrState = AbrState(
    hasSwitch: bool,
    enabled: bool,
    variants: seq<Variant>,
    playbackRate: PlaybackRate,
    startupComplete: bool,
    lastTimeChosenMs: Option<real>,
    currentBitrate: real,
    stallCount: nat,
    failedIncreaseCount: nat,
    isBuffering: bool,
    isPreviousSwitchIncrease: bool,
    isSwitchIncrease: bool,
    resetStallCountTimer: Option<real>,
    increaseBitrateTimer: Option<real>,
    decreaseBitrateTimer: Option<real>,
    suggestStreamTimer: Option<real>,
    currentVariant: Option<Variant>)

  /** The new state, the variant handed to `switch_` (if any) and how the call ended. */
  datatype Step = Step(state: AbrState, switched: Option<Variant>, outcome: Outcome)

  /** JavaScript truthiness of `lastTimeChosenMs_`: null and 0 are false. */
  predicate Truthy(t: Option<real>) {
    t.Some? && t.value != 0.0
  }

  /** `now - lastTimeChosenMs_` coerces null to 0. */
  function TimeOrZero(t: Option<real>): real {
    if t.Some? then t.value else 0.0
  }

  function SwitchCalls(switched: Option<Variant>): seq<Variant> {
    if switched.Some? then [switched.value] else []
  }

  /** `getDefaultBandwidth_`: the network hint in bits per second when present, non-zero and enabled. */
  function DefaultBandwidth(config: AbrConfig, downlink: Option<real>): (r: real)
    ensures !config.useNetworkInformation ==> r == config.defaultBandwidthEstimate
  {
    if downlink.Some? && downlink.value != 0.0 && config.useNetworkInformation then downlink.value * 1000000.0
    else config.defaultBandwidthEstimate
  }

  /** `scheduleIncreaseVideoBitrate_`: re-arms the increase timer at `10 << counter` seconds. */
  function ScheduleIncrease(s: AbrState): (r: AbrState)
    ensures r == s.(increaseBitrateTimer := r.increaseBitrateTimer)
    ensures r.increaseBitrateTimer.Some? && r.increaseBitrateTimer.value == IncreaseDelay(s.failedIncreaseCount) as real
  {
    s.(increaseBitrateTimer := Some(IncreaseDelay(s.failedIncreaseCount) as real))
  }

  /**
   * The order `chooseVariant` leaves `variants_` in: without restrictions,
   * or when no variant meets them, the stable sort reorders the manager's
   * own list in place.
   */
  function ReorderedVariants(restrictions: Restrictions, variants: seq<Variant>): seq<Variant> {
    var sorted := FilterAndSortVariants(restrictions, variants);
    if restrictions.None? || (|variants| > 0 && |sorted| == 0) then FilterAndSortVariants(None, variants)
    else variants
  }

  /**
   * The variant `chooseVariant` returns from its candidates: by bandwidth
   * with a good estimate, else one step of the ratchet after an earlier
   * choice, else the highest candidate.
   */
  function ChooseAmong(candidates: seq<Variant>, s: AbrState, config: AbrConfig, est: Estimate): Option<Variant>
    requires PositiveTargets(config)
  {
    if est.good then
      ChooseByBandwidth(candidates, est.bitsPerSecond, EffectiveRate(s.playbackRate),
                        config.bandwidthDowngradeTarget, config.bandwidthUpgradeTarget)
    else if Truthy(s.lastTimeChosenMs) then
      if s.isSwitchIncrease then NextHigher(candidates, s.currentBitrate) else NextLower(candidates, s.currentBitrate)
    else if candidates == [] then None
    else Some(candidates[|candidates| - 1])
  }

  /**
   * The ratchet's effect on the state: when it turned (no good estimate,
   * an earlier choice), the bitrate follows the chosen variant, the failure
   * counter is updated and the increase timer re-armed.
   */
  function RatchetAmong(candidates: seq<Variant>, s: AbrState, config: AbrConfig, est: Estimate): (r: AbrState)
    requires PositiveTargets(config)
    ensures r == s.(currentBitrate := r.currentBitrate, failedIncreaseCount := r.failedIncreaseCount,
                    isPreviousSwitchIncrease := r.isPreviousSwitchIncrease, increaseBitrateTimer := r.increaseBitrateTimer)
  {
    if est.good || !Truthy(s.lastTimeChosenMs) then s
    else
      var chosen := ChooseAmong(candidates, s, config, est);
      var counter := if s.isSwitchIncrease then CounterAfterUpScan(candidates, s.failedIncreaseCount, s.isPreviousSwitchIncrease)
                     else CounterAfterDownScan(candidates, s.currentBitrate, s.failedIncreaseCount, s.isPreviousSwitchIncrease);
      ScheduleIncrease(s.(currentBitrate := if chosen.Some? then chosen.value.bandwidth else s.currentBitrate,
                          failedIncreaseCount := counter,
                          isPreviousSwitchIncrease := s.isSwitchIncrease))
  }

  /** The choice does not look at the variant list, only at the candidates. */
  lemma ChoiceIgnoresList(candidates: seq<Variant>, s: AbrState, config: AbrConfig, est: Estimate, vs: seq<Variant>)
    requires PositiveTargets(config)
    ensures ChooseAmong(candidates, s.(variants := vs), config, est) == ChooseAmong(candidates, s, config, est)
  {
    var t := s.(variants := vs);
    assert t.lastTimeChosenMs == s.lastTimeChosenMs && t.isSwitchIncrease == s.isSwitchIncrease;
    assert t.currentBitrate == s.currentBitrate && t.playbackRate == s.playbackRate;
  }

  /** The variant `chooseVariant` returns. */
  function ChosenVariant(s: AbrState, config: AbrConfig, est: Estimate): Option<Variant>
    requires PositiveTargets(config)
  {
    ChooseAmong(Candidates(config.restrictions, s.variants), s, config, est)
  }

  /**
   * The state after `chooseVariant`: the variants reordered by the sort,
   * then the ratchet's effect, then the time of the choice stamped.
   */
  function ChooseVariantStep(s: AbrState, config: AbrConfig, est: Estimate, now: real): AbrState
    requires PositiveTargets(config)
  {
    var sorted := s.(variants := ReorderedVariants(config.restrictions, s.variants));
    RatchetAmong(Candidates(config.restrictions, s.variants), sorted, config, est).(lastTimeChosenMs := Some(now))
  }

  /**
   * A variant is chosen exactly when there are variants, and it is one of
   * them; the variant list is only reordered.
   */
  lemma ChosenVariantIsOffered(s: AbrState, config: AbrConfig, est: Estimate)
    requires PositiveTargets(config)
    ensures var chosen := ChosenVariant(s, config, est);
      && (chosen.None? <==> s.variants == [])
      && (chosen.Some? ==> chosen.value in s.variants)
  {
    var c := Candidates(config.restrictions, s.variants);
    assert |c| > 0 <==> |s.variants| > 0 by { CandidatesOffered(config.restrictions, s.variants); }
    assert forall v :: v in c ==> v in s.variants by { CandidatesOffered(config.restrictions, s.variants); }
  }

  /** `chooseVariant` only reorders the variant list. */
  lemma ReorderingIsPermutation(restrictions: Restrictions, variants: seq<Variant>)
    ensures multiset(ReorderedVariants(restrictions, variants)) == multiset(variants)
  {
    var r := ReorderedVariants(restrictions, variants);
    if r != variants {
      var all := FilterAndSortVariants(None, variants);
      assert r == all;
      assert forall v :: multiset(all)[v] == multiset(variants)[v];
    }
  }

  /**
   * Without restrictions the filtered list is the whole list sorted, so it
   * is empty only when there are no variants.
   */
  lemma CandidatesSort(restrictions: Restrictions, variants: seq<Variant>)
    ensures restrictions.None? && variants != [] ==> FilterAndSortVariants(restrictions, variants) != []
  {
    if restrictions.None? && variants != [] {
      FilteredMembership(restrictions, variants);
      assert variants[0] in FilterAndSortVariants(restrictions, variants);
    }
  }

  /** With no good estimate and no earlier choice, `chooseVariant` picks the highest candidate. */
  lemma NoHistoryPicksHighest(s: AbrState, config: AbrConfig, est: Estimate)
    requires PositiveTargets(config) && s.variants != []
    requires !est.good && !Truthy(s.lastTimeChosenMs)
    ensures var chosen := ChosenVariant(s, config, est);
      chosen.Some? && forall v :: v in Candidates(config.restrictions, s.variants) ==> v.bandwidth <= chosen.value.bandwidth
  {
    var candidates := Candidates(config.restrictions, s.variants);
    CandidatesOffered(config.restrictions, s.variants);
    assert ChosenVariant(s, config, est) == Some(candidates[|candidates| - 1]);
    forall v | v in candidates ensures v.bandwidth <= candidates[|candidates| - 1].bandwidth {
      var j :| 0 <= j < |candidates| && candidates[j] == v;
    }
  }

  /**
   * When there are variants but none meets the restrictions, `chooseVariant`
   * picks the lowest-bandwidth variant, whichever rule it applies.
   */
  lemma NoVariantMeetsPicksLowest(s: AbrState, config: AbrConfig, est: Estimate)
    requires PositiveTargets(config) && s.variants != []
    requires forall v :: v in s.variants ==> !Meets(config.restrictions, v)
    ensures var chosen := ChosenVariant(s, config, est);
      chosen.Some? && chosen.value in s.variants && forall v :: v in s.variants ==> chosen.value.bandwidth <= v.bandwidth
  {
    var candidates := Candidates(config.restrictions, s.variants);
    CandidatesWhenNoneMeets(config.restrictions, s.variants);
    if !est.good && Truthy(s.lastTimeChosenMs) {
      assert FirstAbove(candidates, s.currentBitrate, 0) <= 1;
    }
  }

  /**
   * `suggestStreams_`: before startup completes nothing happens until the
   * estimate is good; afterwards nothing happens within the switch interval
   * of the last choice. Otherwise a variant is chosen and handed to
   * `switch_` when it differs from the current one; with no callback bound
   * that call throws.
   */
  function SuggestStreamsStep(s: AbrState, config: AbrConfig, est: Estimate, now: real): (r: Step)
    requires PositiveTargets(config)
    ensures r.state.isBuffering == s.isBuffering && r.state.isSwitchIncrease == s.isSwitchIncrease
    ensures r.state.stallCount == s.stallCount && r.state.enabled == s.enabled
  {
    if !s.startupComplete && !est.good then Step(s, None, Returned)
    else if s.startupComplete && now - TimeOrZero(s.lastTimeChosenMs) < config.switchInterval * 1000.0 then
      Step(s, None, Returned)
    else
      ChooseAndSwitch(s.(startupComplete := true), config, est, now)
  }

  /** The part of `suggestStreams_` past its guard: a variant is chosen and offered to `switch_`. */
  function ChooseAndSwitch(s: AbrState, config: AbrConfig, est: Estimate, now: real): Step
    requires PositiveTargets(config)
  {
    SwitchStep(ChooseVariantStep(s, config, est, now), ChosenVariant(s, config, est))
  }

  /**
   * The tail of `suggestStreams_`: a chosen variant other than the current
   * one is handed to `switch_` and becomes current; with no callback bound
   * the call throws first.
   */
  function SwitchStep(t: AbrState, chosen: Option<Variant>): (r: Step)
    ensures r.state.isBuffering == t.isBuffering && r.state.isSwitchIncrease == t.isSwitchIncrease
    ensures r.state.stallCount == t.stallCount && r.state.enabled == t.enabled
    ensures r.switched.Some? ==>
              r.switched == chosen && chosen != t.currentVariant && r.state.currentVariant == chosen
              && t.hasSwitch && r.outcome == Returned
    ensures r.switched.None? ==> r.state.currentVariant == t.currentVariant
    ensures r.outcome == ThrewTypeError <==> chosen.Some? && chosen != t.currentVariant && !t.hasSwitch
  {
    if chosen.Some? && chosen != t.currentVariant then
      if t.hasSwitch then Step(t.(currentVariant := chosen), chosen, Returned)
      else Step(t, None, ThrewTypeError)
    else Step(t, None, Returned)
  }

  /**
   * Nothing happens before startup without a good estimate, nor within the
   * switch interval after startup. A switch hands over an offered variant
   * different from the current one, which becomes current; otherwise the
   * current variant stays. The TypeError happens only with no callback.
   */
  lemma SuggestStreamsFacts(s: AbrState, config: AbrConfig, est: Estimate, now: real)
    requires PositiveTargets(config)
    ensures var r := SuggestStreamsStep(s, config, est, now);
      && (!s.startupComplete && !est.good ==> r == Step(s, None, Returned))
      && (s.startupComplete && now - TimeOrZero(s.lastTimeChosenMs) < config.switchInterval * 1000.0 ==>
            r == Step(s, None, Returned))
      && (r.switched.Some? ==>
            && r.switched.value in s.variants && r.switched != s.currentVariant
            && r.state.currentVariant == r.switched && s.hasSwitch && r.outcome == Returned)
      && (r.switched.None? ==> r.state.currentVariant == s.currentVariant)
      && (r.outcome == ThrewTypeError ==> !s.hasSwitch)
  {
    if !(!s.startupComplete && !est.good) && !(s.startupComplete && now - TimeOrZero(s.lastTimeChosenMs) < config.switchInterval * 1000.0) {
      var started := s.(startupComplete := true);
      var t := ChooseVariantStep(started, config, est, now);
      ChosenVariantIsOffered(started, config, est);
      assert t.currentVariant == s.currentVariant && t.hasSwitch == s.hasSwitch;
      assert SuggestStreamsStep(s, config, est, now) == SwitchStep(t, ChosenVariant(started, config, est));
    }
  }

  /** `scheduleSuggestStream_`: while buffering the suggestion is deferred to the retry timer. */
  function ScheduleSuggestStreamStep(s: AbrState, config: AbrConfig, est: Estimate, now: real): (r: Step)
    requires PositiveTargets(config)
    ensures s.isBuffering ==> r == Step(s.(suggestStreamTimer := Some(SUGGEST_STREAM_RETRY_DELAY)), None, Returned)
    ensures r.state.isSwitchIncrease == s.isSwitchIncrease && r.state.enabled == s.enabled
  {
    if s.isBuffering then Step(s.(suggestStreamTimer := Some(SUGGEST_STREAM_RETRY_DELAY)), None, Returned)
    else SuggestStreamsStep(s, config, est, now)
  }

  /**
   * `decreaseVideoBitrate_`: the ratchet turns downwards, a suggestion is
   * scheduled when enabled, and the stall count is reset unless that
   * suggestion threw.
   */
  function DecreaseVideoBitrateStep(s: AbrState, config: AbrConfig, est: Estimate, now: real): (r: Step)
    requires PositiveTargets(config)
    ensures !r.state.isSwitchIncrease
    ensures r.outcome == Returned ==> r.state.stallCount == 0
    ensures !s.enabled ==> r == Step(s.(isSwitchIncrease := false, stallCount := 0), None, Returned)
  {
    var t := s.(isSwitchIncrease := false);
    if t.enabled then
      var r := ScheduleSuggestStreamStep(t, config, est, now);
      if r.outcome == ThrewTypeError then r
      else r.(state := r.state.(stallCount := 0))
    else
      Step(t.(stallCount := 0), None, Returned)
  }

  /**
   * `increaseVideoBitrate_`: the ratchet turns upwards; when enabled, a
   * latency above the service description's maximum re-arms the increase
   * timer, anything else schedules a suggestion. A missing service
   * description (or latency target) is dereferenced and throws.
   */
  function IncreaseVideoBitrateStep(s: AbrState, config: AbrConfig, est: Estimate, now: real,
                                    serviceDescription: Option<ServiceDescription>,
                                    presentationLatency: seq<Option<real>>): (r: Step)
    requires PositiveTargets(config)
    ensures r.state.isSwitchIncrease
    ensures !s.enabled ==> r == Step(s.(isSwitchIncrease := true), None, Returned)
    ensures s.enabled && (serviceDescription.None? || serviceDescription.value.latency.None?) ==>
              r == Step(s.(isSwitchIncrease := true), None, ThrewTypeError)
  {
    var t := s.(isSwitchIncrease := true);
    if !t.enabled then Step(t, None, Returned)
    else
      var latency := if serviceDescription.Some? && |presentationLatency| > 0 &&
                        presentationLatency[0].Some? && presentationLatency[0].value != 0.0
                     then presentationLatency[0].value else 0.0;
      if serviceDescription.None? || serviceDescription.value.latency.None? then Step(t, None, ThrewTypeError)
      else
        var max := serviceDescription.value.latency.value.max;
        // A comparison with an undefined maximum is false.
        if max.Some? && latency > max.value then Step(ScheduleIncrease(t), None, Returned)
        else ScheduleSuggestStreamStep(t, config, est, now)
  }

  /**
   * The bookkeeping of `onBuffering` once the estimate is not good: the
   * flag is set, the stall counted, the reset and increase timers re-armed
   * and the decrease timer armed.
   */
  function BufferingStarted(s: AbrState): AbrState {
    ScheduleIncrease(StallCounted(s)).(decreaseBitrateTimer := Some(BUFFERING_TIME_TO_DECREASE_BITRATE))
  }

  /** The flag is set, the stall counted and the reset timer re-armed. */
  function StallCounted(s: AbrState): AbrState {
    s.(isBuffering := true, stallCount := s.stallCount + 1, resetStallCountTimer := Some(RESET_STALL_COUNT_DELAY))
  }

  /**
   * `onBuffering`: ignored while the estimate is good. Otherwise a stall is
   * counted, the three timers are armed and, at the threshold, the bitrate
   * is decreased at once. Since buffering has just been flagged, that
   * decrease only defers its suggestion: nothing is switched and nothing
   * throws.
   */
  function OnBufferingStep(s: AbrState, config: AbrConfig, est: Estimate, now: real): (r: Step)
    requires PositiveTargets(config)
    ensures est.good ==> r == Step(s, None, Returned)
    ensures r.switched.None? && r.outcome == Returned
    ensures !est.good ==>
              && r.state.isBuffering
              && r.state.decreaseBitrateTimer == Some(BUFFERING_TIME_TO_DECREASE_BITRATE)
              && r.state.resetStallCountTimer == Some(RESET_STALL_COUNT_DELAY)
              && r.state.stallCount == (if (s.stallCount + 1) as real >= config.stallCountToDowngrade then 0
                                        else s.stallCount + 1)
              && r.state.isSwitchIncrease == ((s.stallCount + 1) as real < config.stallCountToDowngrade && s.isSwitchIncrease)
  {
    if est.good then Step(s, None, Returned)
    else
      var t := BufferingStarted(s);
      if t.stallCount as real >= config.stallCountToDowngrade then DecreaseVideoBitrateStep(t, config, est, now)
      else Step(t, None, Returned)
  }

  /**
   * The tail of `segmentDownloaded` once the sample is taken: a suggestion
   * is scheduled only after an earlier choice, when enabled and once the
   * estimate is good.
   */
  function AfterSampleStep(s: AbrState, config: AbrConfig, est: Estimate, now: real): (r: Step)
    requires PositiveTargets(config)
    ensures !est.good || !s.enabled || s.lastTimeChosenMs.None? ==> r == Step(s, None, Returned)
  {
    if s.lastTimeChosenMs.Some? && s.enabled && est.good then ScheduleSuggestStreamStep(s, config, est, now)
    else Step(s, None, Returned)
  }

  /** The estimator's answer, with the default `getDefaultBandwidth_` computes. */
  function EstimateOf(estimator: SlidingPercentileBandwidthEstimator, config: AbrConfig, downlink: Option<real>): (e: Estimate)
    reads estimator
    ensures e.good == estimator.HasGoodEstimate()
    ensures e.good ==> e.bitsPerSecond == estimator.bandwidthEstimate
    ensures !e.good ==> e.bitsPerSecond == DefaultBandwidth(config, downlink)
  {
    Estimate(estimator.HasGoodEstimate(), estimator.GetBandwidthEstimate(DefaultBandwidth(config, downlink)))
  }

  class SimpleLLAbrManager {
    /** Whether a switch callback is bound (`switch_ != null`). */
    var hasSwitch: bool
    var enabled: bool
    const estimator: SlidingPercentileBandwidthEstimator
    var variants: seq<Variant>
    var playbackRate: PlaybackRate
    var startupComplete: bool
    var lastTimeChosenMs: Option<real>
    var config: Option<AbrConfig>
    var currentBitrate: real
    var stallCount: nat
    var failedIncreaseCount: nat
    var isBuffering: bool
    var isPreviousSwitchIncrease: bool
    var isSwitchIncrease: bool
    var resetStallCountTimer: Option<real>
    var increaseBitrateTimer: Option<real>
    var decreaseBitrateTimer: Option<real>
    var suggestStreamTimer: Option<real>
    var processedUris: seq<string>
    var processedUriSet: set<string>
    var currentVariant: Option<Variant>
    /** Every variant handed to `switch_`, in order. */
    ghost var switches: seq<Variant>

    ghost predicate Valid()
      reads this, estimator, estimator.slidingPercentile
    {
      && estimator.Valid()
      && (config.Some? ==> PositiveTargets(config.value))
      && LogInvariant(UriLog(processedUris, processedUriSet))
    }

    /** A configuration is set, with positive bandwidth targets. */
    predicate Configured()
      reads this
    {
      config.Some? && PositiveTargets(config.value)
    }

    function State(): AbrState
      reads this
    {
      AbrState(hasSwitch, enabled, variants, playbackRate, startupComplete, lastTimeChosenMs,
               currentBitrate, stallCount, failedIncreaseCount, isBuffering, isPreviousSwitchIncrease,
               isSwitchIncrease, resetStallCountTimer, increaseBitrateTimer, decreaseBitrateTimer,
               suggestStreamTimer, currentVariant)
    }

    constructor ()
      ensures Valid() && fresh(estimator) && fresh(estimator.slidingPercentile)
      ensures estimator.history == [] && switches == []
      ensures State() == AbrState(false, false, [], Rate(1.0), false, None, 0.0, 0, 0, false, false, true,
                                  None, None, None, None, None)
      ensures processedUris == [] && processedUriSet == {}
      ensures config.None?
    {
      hasSwitch := false;
      enabled := false;
      estimator := new SlidingPercentileBandwidthEstimator();
      variants := [];
      playbackRate := Rate(1.0);
      startupComplete := false;
      lastTimeChosenMs := None;
      config := None;
      currentBitrate := 0.0;
      stallCount := 0;
      failedIncreaseCount := 0;
      isBuffering := false;
      isPreviousSwitchIncrease := false;
      isSwitchIncrease := true;
      resetStallCountTimer := None;
      increaseBitrateTimer := None;
      decreaseBitrateTimer := None;
      suggestStreamTimer := None;
      processedUris := [];
      processedUriSet := {};
      currentVariant := None;
      switches := [];
    }

    /** `stop`: unbinds the callback, disables, forgets the variants and the last choice, resets the rate. */
    method Stop()
      modifies this`hasSwitch, this`enabled, this`variants, this`lastTimeChosenMs, this`playbackRate
      ensures State() == old(State()).(hasSwitch := false, enabled := false, variants := [],
                                       lastTimeChosenMs := None, playbackRate := Rate(1.0))
    {
      hasSwitch := false;
      enabled := false;
      variants := [];
      lastTimeChosenMs := None;
      playbackRate := Rate(1.0);
    }

    /** `init`: binds the switch callback. */
    method Init()
      modifies this`hasSwitch
      ensures hasSwitch
    {
      hasSwitch := true;
    }

    method Enable()
      modifies this`enabled
      ensures enabled
    {
      enabled := true;
    }

    /** `disable`: only clears the flag; unlike `stop` it resets nothing else. */
    method Disable()
      modifies this`enabled
      ensures !enabled
    {
      enabled := false;
    }

    method SetVariants(vs: seq<Variant>)
      modifies this`variants
      ensures variants == vs
    {
      variants := vs;
    }

    method PlaybackRateChanged(rate: PlaybackRate)
      modifies this`playbackRate
      ensures playbackRate == rate
    {
      playbackRate := rate;
    }

    method Configure(c: AbrConfig)
      requires Valid() && PositiveTargets(c)
      modifies this`config
      ensures Valid() && config == Some(c)
    {
      config := Some(c);
    }

    /** `getBandwidthEstimate`: the estimator's answer with the configured default. */
    function GetBandwidthEstimate(): (r: real)
      requires config.Some?
      reads this, estimator
      ensures r == EstimateOf(estimator, config.value, None).bitsPerSecond
      ensures !estimator.HasGoodEstimate() ==> r == config.value.defaultBandwidthEstimate
    {
      estimator.GetBandwidthEstimate(config.value.defaultBandwidthEstimate)
    }

    /** `scheduleIncreaseVideoBitrate_`: stops the increase timer and re-arms it at `10 << counter`. */
    method ScheduleIncreaseVideoBitrate()
      modifies this`increaseBitrateTimer
      ensures State() == ScheduleIncrease(old(State()))
    {
      increaseBitrateTimer := None;
      increaseBitrateTimer := Some(IncreaseDelay(failedIncreaseCount) as real);
    }

    /**
     * `chooseNextHigherBandwidthVariant_`: the first variant above the
     * current bitrate, else the highest; every iteration resets the failure
     * counter when the previous switch was an increase.
     */
    method ChooseNextHigherBandwidthVariant(sorted: seq<Variant>) returns (chosen: Option<Variant>)
      modifies this`failedIncreaseCount
      ensures chosen == NextHigher(sorted, currentBitrate)
      ensures failedIncreaseCount == CounterAfterUpScan(sorted, old(failedIncreaseCount), isPreviousSwitchIncrease)
    {
      chosen := if |sorted| > 0 then Some(sorted[|sorted| - 1]) else None;
      var i := 0;
      while i < |sorted|
        invariant 0 <= i <= |sorted|
        invariant FirstAbove(sorted, currentBitrate, 0) == FirstAbove(sorted, currentBitrate, i)
        invariant chosen == if sorted == [] then None else Some(sorted[|sorted| - 1])
        invariant failedIncreaseCount == if i == 0 then old(failedIncreaseCount)
                                         else CounterAfterUpScan(sorted, old(failedIncreaseCount), isPreviousSwitchIncrease)
      {
        if isPreviousSwitchIncrease {
          failedIncreaseCount := 0;
        }
        if sorted[i].bandwidth > currentBitrate {
          chosen := Some(sorted[i]);
          break;
        }
        i := i + 1;
      }
    }

    /**
     * `chooseNextLowerBandwidthVariant_`: scanning down from the highest,
     * the first variant under the current bitrate, else the lowest; every
     * variant examined adds one to the failure counter when the previous
     * switch was an increase and resets it otherwise.
     */
    method ChooseNextLowerBandwidthVariant(sorted: seq<Variant>) returns (chosen: Option<Variant>)
      modifies this`failedIncreaseCount
      ensures chosen == NextLower(sorted, currentBitrate)
      ensures failedIncreaseCount ==
              CounterAfterDownScan(sorted, currentBitrate, old(failedIncreaseCount), isPreviousSwitchIncrease)
    {
      chosen := if |sorted| > 0 then Some(sorted[0]) else None;
      var i := |sorted| - 1;
      while i >= 0
        invariant -1 <= i < |sorted|
        invariant LastBelow(sorted, currentBitrate, |sorted|) == LastBelow(sorted, currentBitrate, i + 1)
        invariant chosen == if sorted == [] then None else Some(sorted[0])
        invariant var examined := |sorted| - 1 - i;
                  failedIncreaseCount == if examined == 0 then old(failedIncreaseCount)
                                         else if isPreviousSwitchIncrease then old(failedIncreaseCount) + examined
                                         else 0
      {
        if isPreviousSwitchIncrease {
          failedIncreaseCount := failedIncreaseCount + 1;
        } else {
          failedIncreaseCount := 0;
        }
        if sorted[i].bandwidth < currentBitrate {
          chosen := Some(sorted[i]);
          break;
        }
        i := i - 1;
      }
    }

    /**
     * The head of `chooseVariant`: the candidates, with `variants_` sorted
     * in place where the source's sort reorders it.
     */
    method SortCandidates(restrictions: Restrictions) returns (sortedVariants: seq<Variant>)
      modifies this`variants
      ensures sortedVariants == Candidates(restrictions, old(variants))
      ensures variants == ReorderedVariants(restrictions, old(variants))
    {
      CandidatesSort(restrictions, variants);
      sortedVariants := FilterAndSortVariants(restrictions, variants);
      if restrictions.None? {
        // Without restrictions the sort reorders `variants_` itself.
        variants := sortedVariants;
      }
      if |variants| > 0 && |sortedVariants| == 0 {
        var all := FilterAndSortVariants(None, variants);
        variants := all;
        sortedVariants := [all[0]];
      }
    }

    /**
     * The ratchet branch of `chooseVariant`: one step up or down, the bitrate
     * following the chosen variant, and the increase timer re-armed.
     */
    method TurnRatchet(sortedVariants: seq<Variant>) returns (chosen: Option<Variant>)
      modifies this`failedIncreaseCount, this`currentBitrate, this`isPreviousSwitchIncrease, this`increaseBitrateTimer
      ensures chosen == if isSwitchIncrease then NextHigher(sortedVariants, old(currentBitrate))
                        else NextLower(sortedVariants, old(currentBitrate))
      ensures failedIncreaseCount ==
              if isSwitchIncrease then CounterAfterUpScan(sortedVariants, old(failedIncreaseCount), old(isPreviousSwitchIncrease))
              else CounterAfterDownScan(sortedVariants, old(currentBitrate), old(failedIncreaseCount), old(isPreviousSwitchIncrease))
      ensures currentBitrate == if chosen.Some? then chosen.value.bandwidth else old(currentBitrate)
      ensures isPreviousSwitchIncrease == isSwitchIncrease
      ensures increaseBitrateTimer == Some(IncreaseDelay(failedIncreaseCount) as real)
    {
      if isSwitchIncrease {
        chosen := ChooseNextHigherBandwidthVariant(sortedVariants);
      } else {
        chosen := ChooseNextLowerBandwidthVariant(sortedVariants);
      }
      if chosen.Some? {
        currentBitrate := chosen.value.bandwidth;
      }
      isPreviousSwitchIncrease := isSwitchIncrease;
      ScheduleIncreaseVideoBitrate();
    }

    /**
     * The choice of `chooseVariant` once the candidates are sorted: by the
     * estimate when it is good, by the ratchet after an earlier choice, the
     * highest candidate otherwise.
     */
    method ChooseFromCandidates(sortedVariants: seq<Variant>, downlink: Option<real>) returns (chosen: Option<Variant>)
      requires Configured()
      modifies this`failedIncreaseCount, this`currentBitrate, this`isPreviousSwitchIncrease, this`increaseBitrateTimer
      ensures chosen == ChooseAmong(sortedVariants, old(State()), config.value, old(EstimateOf(estimator, config.value, downlink)))
      ensures State() == RatchetAmong(sortedVariants, old(State()), config.value, old(EstimateOf(estimator, config.value, downlink)))
    {
      var cfg := config.value;
      chosen := if |sortedVariants| > 0 then Some(sortedVariants[|sortedVariants| - 1]) else None;
      if estimator.HasGoodEstimate() {
        var currentBandwidth := estimator.GetBandwidthEstimate(DefaultBandwidth(cfg, downlink));
        chosen := ChooseVariantByBandwidth(sortedVariants, currentBandwidth, EffectiveRate(playbackRate),
                                           cfg.bandwidthDowngradeTarget, cfg.bandwidthUpgradeTarget);
      } else if Truthy(lastTimeChosenMs) {
        chosen := TurnRatchet(sortedVariants);
      }
    }

    /** The choice among sorted candidates followed by the time stamp that ends `chooseVariant`. */
    method ChooseAndStamp(sortedVariants: seq<Variant>, now: real, downlink: Option<real>) returns (chosen: Option<Variant>)
      requires Configured()
      modifies this`failedIncreaseCount, this`currentBitrate, this`isPreviousSwitchIncrease
      modifies this`increaseBitrateTimer, this`lastTimeChosenMs
      ensures chosen == ChooseAmong(sortedVariants, old(State()), config.value, old(EstimateOf(estimator, config.value, downlink)))
      ensures State() == RatchetAmong(sortedVariants, old(State()), config.value, old(EstimateOf(estimator, config.value, downlink))).(lastTimeChosenMs := Some(now))
    {
      chosen := ChooseFromCandidates(sortedVariants, downlink);
      lastTimeChosenMs := Some(now);
    }

    /** `chooseVariant`, proved to follow `ChosenVariant` and `ChooseVariantStep`. */
    method ChooseVariant(now: real, downlink: Option<real>) returns (chosen: Option<Variant>)
      requires Configured()
      modifies this`variants, this`failedIncreaseCount, this`currentBitrate, this`isPreviousSwitchIncrease
      modifies this`increaseBitrateTimer, this`lastTimeChosenMs
      ensures chosen == ChosenVariant(old(State()), config.value, old(EstimateOf(estimator, config.value, downlink)))
      ensures State() == ChooseVariantStep(old(State()), config.value, old(EstimateOf(estimator, config.value, downlink)), now)
    {
      ghost var s := State();
      ghost var est := EstimateOf(estimator, config.value, downlink);
      var sortedVariants := SortCandidates(config.value.restrictions);
      ghost var reordered := ReorderedVariants(config.value.restrictions, s.variants);
      assert State() == s.(variants := reordered);
      ChoiceIgnoresList(sortedVariants, s, config.value, est, reordered);
      chosen := ChooseAndStamp(sortedVariants, now, downlink);
    }

    /** The switch at the end of `suggestStreams_`, proved to follow `SwitchStep`. */
    method OfferSwitch(chosenVariant: Option<Variant>) returns (outcome: Outcome)
      modifies this`currentVariant, this`switches
      ensures var r := SwitchStep(old(State()), chosenVariant);
        State() == r.state && outcome == r.outcome && switches == old(switches) + SwitchCalls(r.switched)
    {
      outcome := Returned;
      if chosenVariant.Some? && chosenVariant != currentVariant {
        if !hasSwitch {
          return ThrewTypeError;
        }
        switches := switches + [chosenVariant.value];
        currentVariant := chosenVariant;
      }
    }

    /**
     * The guard of `suggestStreams_`: before startup it passes once the
     * estimate is good, completing startup; afterwards it passes once the
     * switch interval has gone by since the last choice.
     */
    method PassGuard(now: real) returns (pass: bool)
      requires Configured()
      modifies this`startupComplete
      ensures pass == !((!old(startupComplete) && !estimator.HasGoodEstimate()) ||
                        (old(startupComplete) && now - TimeOrZero(lastTimeChosenMs) < config.value.switchInterval * 1000.0))
      ensures startupComplete == (old(startupComplete) || pass)
    {
      if !startupComplete {
        if !estimator.HasGoodEstimate() {
          return false;
        }
        startupComplete := true;
      } else {
        var delta := now - TimeOrZero(lastTimeChosenMs);
        if delta < config.value.switchInterval * 1000.0 {
          return false;
        }
      }
      return true;
    }

    /** `suggestStreams_`, proved to follow `SuggestStreamsStep`. */
    method SuggestStreams(now: real, downlink: Option<real>) returns (outcome: Outcome)
      requires Configured()
      modifies this`startupComplete, this`variants, this`failedIncreaseCount, this`currentBitrate
      modifies this`isPreviousSwitchIncrease, this`increaseBitrateTimer, this`lastTimeChosenMs
      modifies this`currentVariant, this`switches
      ensures var r := SuggestStreamsStep(old(State()), config.value, old(EstimateOf(estimator, config.value, downlink)), now);
        State() == r.state && outcome == r.outcome && switches == old(switches) + SwitchCalls(r.switched)
    {
      var pass := PassGuard(now);
      if !pass {
        return Returned;
      }
      outcome := ChooseAndOffer(now, downlink);
    }

    /** The part of `suggestStreams_` past its guard, proved to follow `ChooseAndSwitch`. */
    method ChooseAndOffer(now: real, downlink: Option<real>) returns (outcome: Outcome)
      requires Configured()
      modifies this`variants, this`failedIncreaseCount, this`currentBitrate, this`isPreviousSwitchIncrease
      modifies this`increaseBitrateTimer, this`lastTimeChosenMs, this`currentVariant, this`switches
      ensures var r := ChooseAndSwitch(old(State()), config.value, old(EstimateOf(estimator, config.value, downlink)), now);
        State() == r.state && outcome == r.outcome && switches == old(switches) + SwitchCalls(r.switched)
    {
      var chosenVariant := ChooseVariant(now, downlink);
      outcome := OfferSwitch(chosenVariant);
    }

    /** `scheduleSuggestStream_`, proved to follow `ScheduleSuggestStreamStep`. */
    method ScheduleSuggestStream(now: real, downlink: Option<real>) returns (outcome: Outcome)
      requires Configured()
      modifies this`startupComplete, this`variants, this`failedIncreaseCount, this`currentBitrate, this`isPreviousSwitchIncrease
      modifies this`increaseBitrateTimer, this`lastTimeChosenMs, this`currentVariant, this`switches, this`suggestStreamTimer
      ensures var r := ScheduleSuggestStreamStep(old(State()), config.value, old(EstimateOf(estimator, config.value, downlink)), now);
        State() == r.state && outcome == r.outcome && switches == old(switches) + SwitchCalls(r.switched)
    {
      if isBuffering {
        suggestStreamTimer := None;
        suggestStreamTimer := Some(SUGGEST_STREAM_RETRY_DELAY);
        return Returned;
      }
      outcome := SuggestStreams(now, downlink);
    }

    /** `decreaseVideoBitrate_`, proved to follow `DecreaseVideoBitrateStep`. */
    method DecreaseVideoBitrate(now: real, downlink: Option<real>) returns (outcome: Outcome)
      requires Configured()
      modifies this`startupComplete, this`variants, this`failedIncreaseCount, this`currentBitrate, this`isPreviousSwitchIncrease
      modifies this`increaseBitrateTimer, this`lastTimeChosenMs, this`currentVariant, this`switches, this`suggestStreamTimer
      modifies this`isSwitchIncrease, this`stallCount
      ensures var r := DecreaseVideoBitrateStep(old(State()), config.value, old(EstimateOf(estimator, config.value, downlink)), now);
        State() == r.state && outcome == r.outcome && switches == old(switches) + SwitchCalls(r.switched)
    {
      isSwitchIncrease := false;
      if enabled {
        outcome := ScheduleSuggestStream(now, downlink);
        if outcome == ThrewTypeError {
          return;
        }
      }
      outcome := Returned;
      stallCount := 0;
    }

    /** `increaseVideoBitrate_`, proved to follow `IncreaseVideoBitrateStep`. */
    method IncreaseVideoBitrate(now: real, downlink: Option<real>, serviceDescription: Option<ServiceDescription>,
                                presentationLatency: seq<Option<real>>) returns (outcome: Outcome)
      requires Configured()
      modifies this`startupComplete, this`variants, this`failedIncreaseCount, this`currentBitrate, this`isPreviousSwitchIncrease
      modifies this`increaseBitrateTimer, this`lastTimeChosenMs, this`currentVariant, this`switches, this`suggestStreamTimer
      modifies this`isSwitchIncrease
      ensures var r := IncreaseVideoBitrateStep(old(State()), config.value, old(EstimateOf(estimator, config.value, downlink)), now,
                                                serviceDescription, presentationLatency);
        State() == r.state && outcome == r.outcome && switches == old(switches) + SwitchCalls(r.switched)
    {
      isSwitchIncrease := true;
      outcome := Returned;
      if enabled {
        var latency := 0.0;
        if serviceDescription.Some? && |presentationLatency| > 0 &&
           presentationLatency[0].Some? && presentationLatency[0].value != 0.0 {
          latency := presentationLatency[0].value;
        }
        if serviceDescription.None? || serviceDescription.value.latency.None? {
          return ThrewTypeError;
        }
        var max := serviceDescription.value.latency.value.max;
        if max.Some? && latency > max.value {
          ScheduleIncreaseVideoBitrate();
        } else {
          outcome := ScheduleSuggestStream(now, downlink);
        }
      }
    }

    /** The bookkeeping at the start of `onBuffering`, proved to follow `BufferingStarted`. */
    method StartBuffering()
      modifies this`isBuffering, this`stallCount, this`resetStallCountTimer, this`increaseBitrateTimer
      modifies this`decreaseBitrateTimer
      ensures State() == BufferingStarted(old(State()))
    {
      CountStall();
      ScheduleIncreaseVideoBitrate();
      decreaseBitrateTimer := Some(BUFFERING_TIME_TO_DECREASE_BITRATE);
    }

    /** The stall is counted and the reset timer re-armed, proved to follow `StallCounted`. */
    method CountStall()
      modifies this`isBuffering, this`stallCount, this`resetStallCountTimer
      ensures State() == StallCounted(old(State()))
    {
      isBuffering := true;
      stallCount := stallCount + 1;
      // scheduleResetStallCount_: stop, then re-arm.
      resetStallCountTimer := None;
      resetStallCountTimer := Some(RESET_STALL_COUNT_DELAY);
    }

    /** `onBuffering`, proved to follow `OnBufferingStep`. */
    method OnBuffering(now: real, downlink: Option<real>) returns (outcome: Outcome)
      requires Configured()
      modifies this`startupComplete, this`variants, this`failedIncreaseCount, this`currentBitrate, this`isPreviousSwitchIncrease
      modifies this`increaseBitrateTimer, this`lastTimeChosenMs, this`currentVariant, this`switches, this`suggestStreamTimer
      modifies this`isSwitchIncrease, this`stallCount, this`isBuffering, this`resetStallCountTimer, this`decreaseBitrateTimer
      ensures var r := OnBufferingStep(old(State()), config.value, old(EstimateOf(estimator, config.value, downlink)), now);
        State() == r.state && outcome == r.outcome && switches == old(switches) + SwitchCalls(r.switched)
    {
      if estimator.HasGoodEstimate() {
        return Returned;
      }
      StartBuffering();
      outcome := Returned;
      if stallCount as real >= config.value.stallCountToDowngrade {
        outcome := DecreaseVideoBitrate(now, downlink);
      }
    }

    /** `onBufferingEnd`: clears the flag and stops the decrease timer. */
    method OnBufferingEnd()
      modifies this`isBuffering, this`decreaseBitrateTimer
      ensures State() == old(State()).(isBuffering := false, decreaseBitrateTimer := None)
    {
      isBuffering := false;
      decreaseBitrateTimer := None;
    }

    /** The reset-stall-count timer fires: the stall count goes back to 0. */
    method FireResetStallCountTimer()
      requires resetStallCountTimer.Some?
      modifies this`resetStallCountTimer, this`stallCount
      ensures State() == old(State()).(resetStallCountTimer := None, stallCount := 0)
    {
      resetStallCountTimer := None;
      stallCount := 0;
    }

    /** The increase-bitrate timer fires and runs `increaseVideoBitrate_`. */
    method FireIncreaseBitrateTimer(now: real, downlink: Option<real>, serviceDescription: Option<ServiceDescription>,
                                    presentationLatency: seq<Option<real>>) returns (outcome: Outcome)
      requires Configured() && increaseBitrateTimer.Some?
      modifies this`startupComplete, this`variants, this`failedIncreaseCount, this`currentBitrate, this`isPreviousSwitchIncrease
      modifies this`increaseBitrateTimer, this`lastTimeChosenMs, this`currentVariant, this`switches, this`suggestStreamTimer
      modifies this`isSwitchIncrease
      ensures var r := IncreaseVideoBitrateStep(old(State()).(increaseBitrateTimer := None), config.value,
                                                old(EstimateOf(estimator, config.value, downlink)), now, serviceDescription, presentationLatency);
        State() == r.state && outcome == r.outcome && switches == old(switches) + SwitchCalls(r.switched)
    {
      increaseBitrateTimer := None;
      outcome := IncreaseVideoBitrate(now, downlink, serviceDescription, presentationLatency);
    }

    /** The decrease-bitrate timer fires and runs `decreaseVideoBitrate_`. */
    method FireDecreaseBitrateTimer(now: real, downlink: Option<real>) returns (outcome: Outcome)
      requires Configured() && decreaseBitrateTimer.Some?
      modifies this`startupComplete, this`variants, this`failedIncreaseCount, this`currentBitrate, this`isPreviousSwitchIncrease
      modifies this`increaseBitrateTimer, this`lastTimeChosenMs, this`currentVariant, this`switches, this`suggestStreamTimer
      modifies this`isSwitchIncrease, this`stallCount, this`decreaseBitrateTimer
      ensures var r := DecreaseVideoBitrateStep(old(State()).(decreaseBitrateTimer := None), config.value,
                                                old(EstimateOf(estimator, config.value, downlink)), now);
        State() == r.state && outcome == r.outcome && switches == old(switches) + SwitchCalls(r.switched)
    {
      decreaseBitrateTimer := None;
      outcome := DecreaseVideoBitrate(now, downlink);
    }

    /** The suggest-stream timer fires and runs `scheduleSuggestStream_`. */
    method FireSuggestStreamTimer(now: real, downlink: Option<real>) returns (outcome: Outcome)
      requires Configured() && suggestStreamTimer.Some?
      modifies this`startupComplete, this`variants, this`failedIncreaseCount, this`currentBitrate, this`isPreviousSwitchIncrease
      modifies this`increaseBitrateTimer, this`lastTimeChosenMs, this`currentVariant, this`switches, this`suggestStreamTimer
      ensures var r := ScheduleSuggestStreamStep(old(State()).(suggestStreamTimer := None), config.value,
                                                 old(EstimateOf(estimator, config.value, downlink)), now);
        State() == r.state && outcome == r.outcome && switches == old(switches) + SwitchCalls(r.switched)
    {
      suggestStreamTimer := None;
      outcome := ScheduleSuggestStream(now, downlink);
    }

    /**
     * `segmentDownloaded`: a URI already processed, or one the player puts
     * at the live edge, is ignored. Otherwise the download is sampled (with
     * `sqrtBytes` standing for `Math.sqrt(numBytes)`), and a suggestion is
     * scheduled after an earlier choice, when enabled and once the estimate
     * is good.
     */
    method SegmentDownloaded(durationMs: real, numBytes: real, sqrtBytes: real, uri: string,
                             isLiveEdgeSegment: bool, now: real, downlink: Option<real>) returns (outcome: Outcome)
      requires Valid() && config.Some?
      requires numBytes >= 0.0 && sqrtBytes >= 0.0
      modifies this, estimator, estimator.slidingPercentile
      ensures Valid() && config == old(config)
      ensures processedUris == old(processedUris) && processedUriSet == old(processedUriSet)
      ensures uri in old(processedUriSet) || isLiveEdgeSegment ==>
                && unchanged(estimator, estimator.slidingPercentile)
                && State() == old(State()) && switches == old(switches) && outcome == Returned
      ensures uri !in old(processedUriSet) && !isLiveEdgeSegment ==>
                && estimator.Sampled(durationMs, numBytes, sqrtBytes)
                && var r := AfterSampleStep(old(State()), config.value, EstimateOf(estimator, config.value, downlink), now);
                   State() == r.state && outcome == r.outcome && switches == old(switches) + SwitchCalls(r.switched)
    {
      outcome := Returned;
      if uri in processedUriSet {
        return;
      }
      if !isLiveEdgeSegment {
        outcome := SampleAndSuggest(durationMs, numBytes, sqrtBytes, now, downlink);
      }
    }


    /** The sampled path of `segmentDownloaded`: the download is sampled, then a suggestion may be scheduled. */
    method SampleAndSuggest(durationMs: real, numBytes: real, sqrtBytes: real, now: real, downlink: Option<real>)
      returns (outcome: Outcome)
      requires Valid() && config.Some?
      requires numBytes >= 0.0 && sqrtBytes >= 0.0
      modifies this`startupComplete, this`variants, this`failedIncreaseCount, this`currentBitrate, this`isPreviousSwitchIncrease
      modifies this`increaseBitrateTimer, this`lastTimeChosenMs, this`currentVariant, this`switches, this`suggestStreamTimer
      modifies estimator, estimator.slidingPercentile
      ensures Valid()
      ensures estimator.Sampled(durationMs, numBytes, sqrtBytes)
      ensures var r := AfterSampleStep(old(State()), config.value, EstimateOf(estimator, config.value, downlink), now);
                State() == r.state && outcome == r.outcome && switches == old(switches) + SwitchCalls(r.switched)
    {
      ghost var s := State();
      estimator.Sample(durationMs, numBytes, sqrtBytes);
      assert State() == s;
      ghost var est := EstimateOf(estimator, config.value, downlink);
      outcome := SuggestAfterSample(now, downlink);
      assert EstimateOf(estimator, config.value, downlink) == est;
    }
    /** The tail of `segmentDownloaded` once the sample is taken. */
    method SuggestAfterSample(now: real, downlink: Option<real>) returns (outcome: Outcome)
      requires Configured()
      modifies this`startupComplete, this`variants, this`failedIncreaseCount, this`currentBitrate, this`isPreviousSwitchIncrease
      modifies this`increaseBitrateTimer, this`lastTimeChosenMs, this`currentVariant, this`switches, this`suggestStreamTimer
      ensures var r := AfterSampleStep(old(State()), config.value, old(EstimateOf(estimator, config.value, downlink)), now);
        State() == r.state && outcome == r.outcome && switches == old(switches) + SwitchCalls(r.switched)
    {
      outcome := Returned;
      if lastTimeChosenMs.Some? && enabled && estimator.HasGoodEstimate() {
        outcome := ScheduleSuggestStream(now, downlink);
      }
    }

    /**
     * `segmentDownloadCompleted`: each URI is pushed onto the log and added
     * to the set; past capacity the oldest is shifted off and deleted from
     * the set.
     */
    method SegmentDownloadCompleted(uris: seq<string>)
      requires Valid()
      modifies this`processedUris, this`processedUriSet
      ensures Valid()
      ensures UriLog(processedUris, processedUriSet) == AdmitAll(old(UriLog(processedUris, processedUriSet)), uris)
    {
      var i := 0;
      while i < |uris|
        invariant 0 <= i <= |uris|
        invariant UriLog(processedUris, processedUriSet) == AdmitAll(old(UriLog(processedUris, processedUriSet)), uris[..i])
      {
        var uri := uris[i];
        processedUris := processedUris + [uri];
        processedUriSet := processedUriSet + {uri};
        if |processedUris| > MAX_PROCESSED_URI_COUNT {
          var oldest := processedUris[0];
          processedUris := processedUris[1..];
          processedUriSet := processedUriSet - {oldest};
        }
        assert uris[..i + 1][..i] == uris[..i];
        i := i + 1;
      }
      assert uris[..i] == uris;
      AdmitAllKeepsInvariant(old(UriLog(processedUris, processedUriSet)), uris);
    }
  }
}
