/** From samples to the per-PVC summary and the trend windows of the risk signal. */
module RiskSignals {

  import opened Growth
  import opened Options
  import opened PlanTypes
  import opened Text
  import opened Times

  const RISK_TREND_WINDOW := 7 * 24 * HOUR
  const RISK_ACCELERATION_WINDOW := 24 * HOUR
  const INT64_LIMIT := 0x8000_0000_0000_0000
  const MIN_INT64 := -INT64_LIMIT

  // ---------------------------------------------------------------------------
  // Trend windows
  // ---------------------------------------------------------------------------

  function Since(samples: seq<Sample>, since: int): seq<Sample> {
    if samples == [] then []
    else
      var last := samples[|samples| - 1];
      Since(samples[..|samples| - 1], since) + if last.timestamp < since then [] else [last]
  }

  method SamplesSince(samples: seq<Sample>, since: int) returns (out: seq<Sample>)
    ensures out == Since(samples, since)
  {
    out := [];
    for i := 0 to |samples|
      invariant out == Since(samples[..i], since)
    {
      assert samples[..i + 1][..i] == samples[..i];
      if samples[i].timestamp < since {
        continue;
      }
      out := out + [samples[i]];
    }
    assert samples[..|samples|] == samples;
  }

  /** A window that opens before every sample holds them all. */
  lemma {:induction false} SinceAll(samples: seq<Sample>, since: int)
    requires forall i :: 0 <= i < |samples| ==> since <= samples[i].timestamp
    ensures Since(samples, since) == samples
  {
    if samples != [] {
      SinceAll(samples[..|samples| - 1], since);
    }
  }

  // ---------------------------------------------------------------------------
  // Projections
  // ---------------------------------------------------------------------------

  /**
   time.Duration(x): truncation toward zero. Out of range the result is whatever the machine
   makes of it; this is amd64's.
   */
  function ToDuration(x: real): int {
    var truncated := if x >= 0.0 then x.Floor else -((-x).Floor);
    if MIN_INT64 <= truncated < INT64_LIMIT then truncated else MIN_INT64
  }

  function DaysInNanos(days: real): real { days * 24.0 * (HOUR as real) }

  function ProjectedFull(now: int, usedBytes: int, capacityBytes: int, growth: real): (Option<real>, Option<int>) {
    if growth <= 0.0 || capacityBytes <= 0 then (None, None)
    else if capacityBytes - usedBytes <= 0 then (Some(0.0), Some(now))
    else
      var days := (capacityBytes - usedBytes) as real / growth;
      (Some(days), Some(now + ToDuration(DaysInNanos(days))))
  }

  function Abs(x: real): real { if x < 0.0 then -x else x }

  function GrowthAcceleration(weekly: real, daily: real): real {
    if weekly == 0.0 then 0.0 else (daily - weekly) / Abs(weekly)
  }

  // ---------------------------------------------------------------------------
  // buildSummary and buildPVCRiskSignal
  // ---------------------------------------------------------------------------

  /** The LLM as buildSummary finds it; `answer` is None when the call fails. */
  datatype LLM = LLM(
    enabled: bool, onlyAlertingPVCs: bool, interval: int, now: int, answer: Option<string>, answeredAt: int)

  /**
   What buildSummary is given. `watched` is the watcher's latest capacity, `requested` the one
   in the PVC's spec.
   */
  datatype SummaryInput = SummaryInput(
    namespace: string, name: string, watched: Option<int>, requested: Option<int>, samples: seq<Sample>,
    usageThreshold: real, daysThreshold: real, prev: PVCSummary, llm: LLM)

  function CapacityOf(watched: Option<int>, requested: Option<int>): int {
    if watched.Some? then watched.value else if requested.Some? then requested.value else 0
  }

  /** The LLM is asked: it is there, the PVC qualifies, and the last insight is old enough. */
  predicate Asks(llm: LLM, alertFiring: bool, lastLLMTime: Option<int>) {
    && llm.enabled
    && !(llm.onlyAlertingPVCs && !alertFiring)
    && (lastLLMTime.None? || llm.now - lastLLMTime.value >= llm.interval)
  }

  function Summary(i: SummaryInput): PVCSummary {
    var capacityBytes := CapacityOf(i.watched, i.requested);
    var growth := Regression(i.samples, capacityBytes);
    var usedBytes := if i.samples == [] then i.prev.usedBytes else i.samples[|i.samples| - 1].usedBytes;
    var usageRatio := if capacityBytes > 0 then usedBytes as real / capacityBytes as real else 0.0;
    var alertFiring :=
      usageRatio >= i.usageThreshold || (growth.daysUntilFull.Some? && growth.daysUntilFull.value < i.daysThreshold);
    var refreshed := Asks(i.llm, alertFiring, i.prev.lastLLMTime) && i.llm.answer.Some?;
    PVCSummary(
      i.namespace, i.name, capacityBytes, usedBytes, usageRatio, growth.growthBytesPerDay,
      growth.daysUntilFull, growth.confidenceR2, |i.samples|,
      if i.samples == [] then i.prev.lastSampleTime else Some(i.samples[|i.samples| - 1].timestamp),
      if refreshed then i.llm.answer.value else i.prev.llmInsight,
      if refreshed then Some(i.llm.answeredAt) else i.prev.lastLLMTime,
      alertFiring)
  }

  method BuildSummary(i: SummaryInput) returns (s: PVCSummary)
    ensures s == Summary(i)
  {
    hide Regression;
    var capacityBytes := 0;
    if i.watched.Some? {
      capacityBytes := i.watched.value;
    } else if i.requested.Some? {
      capacityBytes := i.requested.value;
    }
    var growth := CalculateGrowth(i.samples, capacityBytes);
    var usedBytes, lastSampleTime := i.prev.usedBytes, i.prev.lastSampleTime;
    if |i.samples| > 0 {
      var last := i.samples[|i.samples| - 1];
      usedBytes, lastSampleTime := last.usedBytes, Some(last.timestamp);
    }
    var usageRatio := 0.0;
    if capacityBytes > 0 {
      usageRatio := usedBytes as real / capacityBytes as real;
    }
    var alertFiring := usageRatio >= i.usageThreshold ||
      (growth.daysUntilFull.Some? && growth.daysUntilFull.value < i.daysThreshold);
    var insight, lastLLMTime := i.prev.llmInsight, i.prev.lastLLMTime;
    if i.llm.enabled {
      if i.llm.onlyAlertingPVCs && !alertFiring {
        return PVCSummary(
          i.namespace, i.name, capacityBytes, usedBytes, usageRatio, growth.growthBytesPerDay, growth.daysUntilFull,
          growth.confidenceR2, |i.samples|, lastSampleTime, insight, lastLLMTime, alertFiring);
      }
      if lastLLMTime.None? || i.llm.now - lastLLMTime.value >= i.llm.interval {
        if i.llm.answer.Some? {
          insight, lastLLMTime := i.llm.answer.value, Some(i.llm.answeredAt);
        }
      }
    }
    return PVCSummary(
      i.namespace, i.name, capacityBytes, usedBytes, usageRatio, growth.growthBytesPerDay, growth.daysUntilFull,
      growth.confidenceR2, |i.samples|, lastSampleTime, insight, lastLLMTime, alertFiring);
  }

  /** The samples the weekly trend is fitted to: the window, or everything when it holds too few. */
  function WeeklySamples(now: int, samples: seq<Sample>): seq<Sample> {
    var recent := Since(samples, now - RISK_TREND_WINDOW);
    if |recent| < 2 then samples else recent
  }

  function WeeklyTrend(now: int, s: PVCSummary, samples: seq<Sample>): (real, real) {
    var weekly := WeeklySamples(now, samples);
    var trend := Regression(weekly, s.capacityBytes);
    if |weekly| >= 2 then (trend.growthBytesPerDay, trend.confidenceR2)
    else (s.growthBytesPerDay, s.confidenceR2)
  }

  function DailyTrend(now: int, s: PVCSummary, samples: seq<Sample>): real {
    var daily := Since(samples, now - RISK_ACCELERATION_WINDOW);
    if |daily| >= 2 then Regression(daily, s.capacityBytes).growthBytesPerDay
    else WeeklyTrend(now, s, samples).0
  }

  function Signal(now: int, s: PVCSummary, samples: seq<Sample>): RiskSignal {
    var (weekly, r2) := WeeklyTrend(now, s, samples);
    var daily := DailyTrend(now, s, samples);
    var (days, at) := ProjectedFull(now, s.usedBytes, s.capacityBytes, weekly);
    RiskSignal(
      s.namespace, s.name, s.usedBytes, s.capacityBytes, s.usageRatio, s.alertFiring, r2, TrimSpace(s.llmInsight),
      weekly, daily, GrowthAcceleration(weekly, daily), days, at)
  }

  method BuildPVCRiskSignal(now: int, s: PVCSummary, samples: seq<Sample>) returns (signal: RiskSignal)
    ensures signal == Signal(now, s, samples)
  {
    hide Regression, ProjectedFull, GrowthAcceleration;
    var weeklySamples := SamplesSince(samples, now - RISK_TREND_WINDOW);
    if |weeklySamples| < 2 {
      weeklySamples := samples;
    }
    var weeklyGrowth, weeklyR2 := s.growthBytesPerDay, s.confidenceR2;
    if |weeklySamples| >= 2 {
      var weekly := CalculateGrowth(weeklySamples, s.capacityBytes);
      weeklyGrowth, weeklyR2 := weekly.growthBytesPerDay, weekly.confidenceR2;
    }
    var dailyGrowth := weeklyGrowth;
    var dailySamples := SamplesSince(samples, now - RISK_ACCELERATION_WINDOW);
    if |dailySamples| >= 2 {
      var daily := CalculateGrowth(dailySamples, s.capacityBytes);
      dailyGrowth := daily.growthBytesPerDay;
    }
    var accel := GrowthAcceleration(weeklyGrowth, dailyGrowth);
    var (daysUntilFull, projectedFullAt) := ProjectedFull(now, s.usedBytes, s.capacityBytes, weeklyGrowth);
    signal := RiskSignal(
      s.namespace, s.name, s.usedBytes, s.capacityBytes, s.usageRatio, s.alertFiring, weeklyR2, TrimSpace(s.llmInsight),
      weeklyGrowth, dailyGrowth, accel, daysUntilFull, projectedFullAt);
  }

  /** The signals of a reconcile, one for each summary, in the same order. */
  function Signals(now: int, summaries: seq<PVCSummary>, samples: seq<seq<Sample>>): (r: seq<RiskSignal>)
    requires |samples| == |summaries|
    ensures |r| == |summaries|
  {
    seq(|summaries|, i requires 0 <= i < |summaries| => Signal(now, summaries[i], samples[i]))
  }

  // ---------------------------------------------------------------------------
  // Alerts and projections
  // ---------------------------------------------------------------------------

  /** spec.thresholds.daysUntilFull, where zero stands for a week. */
  function DaysThreshold(spec: int): real { if spec == 0 then 7.0 else spec as real }

  lemma SoonerThan(room: real, growth: real, days: real)
    requires growth > 0.0
    ensures room / growth < days <==> room < Product(growth, days)
  {
    var d := room / growth;
    assert d * growth == room;
    assert d < days ==> d * growth < days * growth;
    assert d >= days ==> d * growth >= days * growth;
  }

  /**
   An alert fires exactly when usage reaches its share of the capacity, or growth carries it past
   the capacity within the days of the threshold.
   */
  lemma AlertMeans(i: SummaryInput)
    requires CapacityOf(i.watched, i.requested) > 0
    ensures
      var s := Summary(i);
      var used, capacity := s.usedBytes as real, CapacityOf(i.watched, i.requested) as real;
      s.alertFiring <==>
        || used >= Product(i.usageThreshold, capacity)
        || (s.growthBytesPerDay > 0.0 && i.daysThreshold > 0.0
            && used + Product(s.growthBytesPerDay, i.daysThreshold) > capacity)
  {
    hide Points, MomentsOf, RSquared, Product, CapacityOf;
    var s := Summary(i);
    var used, capacity := s.usedBytes as real, s.capacityBytes as real;
    ShareReached(used, capacity, i.usageThreshold);
    if s.growthBytesPerDay > 0.0 {
      SoonerThan(capacity - used, s.growthBytesPerDay, i.daysThreshold);
    }
  }

  lemma ShareReached(used: real, capacity: real, share: real)
    requires capacity > 0.0
    ensures used / capacity >= share <==> used >= Product(share, capacity)
  {
    var ratio := used / capacity;
    assert ratio * capacity == used;
    assert ratio >= share ==> ratio * capacity >= share * capacity;
    assert ratio < share ==> ratio * capacity < share * capacity;
  }

  /** The days-until-full check fires for these samples. */
  predicate AlertsOnDays(samples: seq<Sample>, capacity: int, threshold: real) {
    var days := Regression(samples, capacity).daysUntilFull;
    days.Some? && days.value < threshold
  }

  const OVERFLOWING := [Sample(0, 0), Sample(DAY, 100)]

  lemma OverflowingPoints()
    ensures MomentsOf(Points(OVERFLOWING, 0)) == OVERFLOWING_MOMENTS
  {
    assert Points(OVERFLOWING, 0) == [Point(0.0, 0.0), Point(1.0, 100.0)];
    TwoPointMoments(Point(0.0, 0.0), Point(1.0, 100.0));
  }

  lemma SlopeIsGrowth(samples: seq<Sample>, m: Moments, capacity: int)
    requires |samples| >= 2 && m == MomentsOf(Points(samples, UnixSeconds(samples[0].timestamp)))
    requires m.XSpread() != 0.0
    ensures Regression(samples, capacity).growthBytesPerDay == m.Slope()
  {
    hide RSquared, MomentsOf, Points, DaysToFill, Moments.XSpread, Moments.Slope;
  }

  const OVERFLOWING_MOMENTS := Moments(2.0, 1.0, 100.0, 1.0, 100.0, 10000.0)

  lemma OverflowingSlope()
    ensures OVERFLOWING_MOMENTS.XSpread() != 0.0 && OVERFLOWING_MOMENTS.Slope() > 0.0
  {
    hide Moments.XSpread, Moments.XYSpread, Moments.Slope, Moments.Intercept;
    LineFromSums(2.0, 1.0, 100.0, 1.0, 100.0, 10000.0, 1.0, 100.0, 0.0);
  }

  lemma OverflowingAnchor()
    ensures |OVERFLOWING| == 2 && UnixSeconds(OVERFLOWING[0].timestamp) == 0
  {
  }

  lemma OverflowingGrows()
    ensures Regression(OVERFLOWING, 50).growthBytesPerDay > 0.0
  {
    hide Regression, MomentsOf, Points, UnixSeconds, Moments.XSpread, Moments.Slope;
    OverflowingPoints();
    OverflowingSlope();
    OverflowingAnchor();
    SlopeIsGrowth(OVERFLOWING, OVERFLOWING_MOMENTS, 50);
  }

  lemma OverflowingIsFull()
    ensures Regression(OVERFLOWING, 50).daysUntilFull == Some(0.0)
  {
    hide Regression;
    OverflowingGrows();
    DaysUntilFullMeaning(OVERFLOWING, 50);
  }

  /** The check is off only for negative thresholds; zero does not turn it off. */
  lemma DaysCheckIsOffExactly(spec: int)
    ensures (forall samples, capacity :: !AlertsOnDays(samples, capacity, DaysThreshold(spec))) <==> spec < 0
  {
    hide Regression;
    if spec < 0 {
      forall samples, capacity ensures !AlertsOnDays(samples, capacity, DaysThreshold(spec)) {
        DaysAreNotNegative(samples, capacity);
      }
    } else {
      OverflowingIsFull();
      assert AlertsOnDays(OVERFLOWING, 50, DaysThreshold(spec));
    }
  }

  /** A threshold counts days, and zero stands for seven. */
  lemma DaysThresholdMeans(samples: seq<Sample>, capacity: int, spec: int)
    requires samples != []
    ensures
      var g, room := Regression(samples, capacity), capacity - samples[|samples| - 1].usedBytes;
      var days := if spec == 0 then 7.0 else spec as real;
      AlertsOnDays(samples, capacity, DaysThreshold(spec)) <==>
        g.growthBytesPerDay > 0.0 && capacity > 0 && days > 0.0 && room as real < Product(g.growthBytesPerDay, days)
  {
    hide RSquared, MomentsOf, Points, Product;
    var g, room := Regression(samples, capacity), capacity - samples[|samples| - 1].usedBytes;
    if g.growthBytesPerDay > 0.0 && capacity > 0 {
      SoonerThan(room as real, g.growthBytesPerDay, DaysThreshold(spec));
    }
  }

  lemma DaysAreNotNegative(samples: seq<Sample>, capacity: int)
    ensures Regression(samples, capacity).daysUntilFull.Some? ==> Regression(samples, capacity).daysUntilFull.value >= 0.0
  {
    if samples != [] {
      DaysUntilFullMeaning(samples, capacity);
    }
  }

  /**
   The projected date comes with the prediction, and is not before now exactly when the days
   fit a 64-bit count of nanoseconds (about 106751 days).
   */
  lemma ProjectedNotBeforeNow(now: int, s: PVCSummary, samples: seq<Sample>)
    ensures var signal := Signal(now, s, samples);
            && (signal.projectedFullAt.Some? <==> signal.daysUntilFull.Some?)
            && (signal.daysUntilFull.Some? ==>
                  && signal.daysUntilFull.value >= 0.0
                  && (signal.projectedFullAt.value >= now
                      <==> DaysInNanos(signal.daysUntilFull.value).Floor < INT64_LIMIT))
  {
    hide Regression;
    var (weekly, _) := WeeklyTrend(now, s, samples);
    if weekly > 0.0 && s.usedBytes < s.capacityBytes {
      FillTime((s.capacityBytes - s.usedBytes) as real, weekly);
    }
  }

  /** The date is the days from now, in whole nanoseconds; a wait that does not fit 64 bits lies before now. */
  ghost predicate DateFits(now: int, days: Option<real>, at: Option<int>) {
    if days.None? then at.None?
    else if days.value * 86_400_000_000_000.0 < 9_223_372_036_854_775_808.0 then
      at.Some? && (at.value - now) as real <= days.value * 86_400_000_000_000.0 < (at.value - now + 1) as real
    else at == Some(now - 9_223_372_036_854_775_808)
  }

  lemma DurationFits(now: int, days: real)
    requires days >= 0.0
    ensures DateFits(now, Some(days), Some(now + ToDuration(DaysInNanos(days))))
  {
    assert DaysInNanos(days) == days * 86_400_000_000_000.0;
  }

  lemma TwoPointMoments(p: Point, q: Point)
    ensures MomentsOf([p, q]) == ZERO_MOMENTS.Add(p).Add(q)
  {
    hide Moments.Add;
    assert [p, q][..1] == [p];
    assert [p][..0] == [];
    assert MomentsOf([p]) == ZERO_MOMENTS.Add(p);
  }
}
