/** What summaries and risk signals say of a PVC, and which samples it rests on. */
module SignalMeanings {

  import opened Growth
  import opened Options
  import opened PlanTypes
  import opened Ranking
  import opened RiskSignals
  import opened Text
  import opened Times

  // ---------------------------------------------------------------------------
  // Summaries
  // ---------------------------------------------------------------------------

  /** The watcher's capacity goes before the requested one. */
  ghost predicate ShowsCapacity(i: SummaryInput, capacityBytes: int) {
    && (i.watched.Some? ==> capacityBytes == i.watched.value)
    && (i.watched.None? && i.requested.Some? ==> capacityBytes == i.requested.value)
    && (i.watched.None? && i.requested.None? ==> capacityBytes == 0)
  }

  /**
   A summary is of its PVC and of all its samples; the usage is the last sample's and the ratio its
   share of the capacity. Without a capacity there is no prediction and only a threshold of zero
   or less raises the alert.
   */
  lemma SummaryTells(i: SummaryInput)
    ensures
      var s := Summary(i);
      && s.namespace == i.namespace && s.name == i.name && s.samplesCount == |i.samples|
      && ShowsCapacity(i, s.capacityBytes)
      && Fitted(i.samples, s.capacityBytes, s.growthBytesPerDay, s.confidenceR2)
      && s.daysUntilFull == Regression(i.samples, s.capacityBytes).daysUntilFull
      && (i.samples != [] ==>
            var last := i.samples[|i.samples| - 1];
            s.usedBytes == last.usedBytes && s.lastSampleTime == Some(last.timestamp))
      && (i.samples == [] ==>
            && s.usedBytes == i.prev.usedBytes && s.lastSampleTime == i.prev.lastSampleTime
            && s.growthBytesPerDay == 0.0 && s.confidenceR2 == 0.0)
      && (s.capacityBytes > 0 ==> Product(s.usageRatio, s.capacityBytes as real) == s.usedBytes as real)
      && (s.capacityBytes <= 0 ==>
            s.usageRatio == 0.0 && s.daysUntilFull.None? && (s.alertFiring <==> i.usageThreshold <= 0.0))
  {
    hide RSquared, MomentsOf, Points, Asks;
    var s := Summary(i);
    if s.capacityBytes > 0 {
      assert s.usedBytes as real / s.capacityBytes as real * s.capacityBytes as real == s.usedBytes as real;
    }
  }

  // ---------------------------------------------------------------------------
  // Signals
  // ---------------------------------------------------------------------------

  function NotBefore(t: int): Sample -> bool {
    (s: Sample) => s.timestamp >= t
  }

  lemma {:induction false} SinceIsFilter(samples: seq<Sample>, since: int)
    ensures Since(samples, since) == Filter(NotBefore(since), samples)
  {
    if samples != [] {
      SinceIsFilter(samples[..|samples| - 1], since);
    }
  }

  /** The growth and confidence fitted to the samples. */
  ghost predicate Fitted(samples: seq<Sample>, capacity: int, growth: real, r2: real) {
    var trend := Regression(samples, capacity);
    growth == trend.growthBytesPerDay && r2 == trend.confidenceR2
  }

  /**
   The weekly trend is fitted to the samples of the last seven days, or to all where those are
   fewer than two, and is the summary's where there are fewer than two in all. The daily trend is
   fitted to the last 24 hours, and is the weekly one where those hold fewer than two.
   */
  lemma TrendsAreOfWindows(now: int, s: PVCSummary, samples: seq<Sample>)
    ensures
      var week := Filter(NotBefore(now - 7 * 86_400 * 1_000_000_000), samples);
      var day := Filter(NotBefore(now - 86_400 * 1_000_000_000), samples);
      var signal := Signal(now, s, samples);
      var weekly, r2, daily := signal.weeklyGrowthBytesPerDay, signal.confidenceR2, signal.dailyGrowthBytesPerDay;
      && (|week| >= 2 ==> Fitted(week, s.capacityBytes, weekly, r2))
      && (|week| < 2 <= |samples| ==> Fitted(samples, s.capacityBytes, weekly, r2))
      && (|week| < 2 && |samples| < 2 ==> weekly == s.growthBytesPerDay && r2 == s.confidenceR2)
      && (|day| >= 2 ==> daily == Regression(day, s.capacityBytes).growthBytesPerDay)
      && (|day| < 2 ==> daily == weekly)
  {
    hide Regression, ProjectedFull, GrowthAcceleration, TrimSpace, Since;
    SinceIsFilter(samples, now - 7 * 86_400 * 1_000_000_000);
    SinceIsFilter(samples, now - 86_400 * 1_000_000_000);
  }

  lemma AccelerationIsShare(weekly: real, daily: real)
    ensures
      var accel := GrowthAcceleration(weekly, daily);
      && (weekly > 0.0 ==> daily == weekly + Product(accel, weekly))
      && (weekly < 0.0 ==> daily == weekly - Product(accel, weekly))
      && (weekly == 0.0 ==> accel == 0.0)
  {
    if weekly != 0.0 {
      var gap, size := daily - weekly, Abs(weekly);
      assert gap / size * size == gap;
      if weekly < 0.0 {
        assert Product(gap / size, weekly) == -(gap / size * size);
      }
    }
  }

  /**
   A signal repeats its summary's facts. Its acceleration is the daily trend's gain over the
   weekly one as a share of it. The usage, growing by the weekly trend, meets the capacity after
   the predicted days, and the date is that many days from now.
   */
  lemma SignalTells(now: int, s: PVCSummary, samples: seq<Sample>)
    ensures
      var signal := Signal(now, s, samples);
      var weekly, daily := signal.weeklyGrowthBytesPerDay, signal.dailyGrowthBytesPerDay;
      && signal.namespace == s.namespace && signal.name == s.name && signal.usedBytes == s.usedBytes
      && signal.capacityBytes == s.capacityBytes && signal.usageRatio == s.usageRatio
      && signal.alertFiring == s.alertFiring && signal.llmInsight == TrimSpace(s.llmInsight)
      && (weekly > 0.0 ==> daily == weekly + Product(signal.growthAcceleration, weekly))
      && (weekly < 0.0 ==> daily == weekly - Product(signal.growthAcceleration, weekly))
      && (weekly == 0.0 ==> signal.growthAcceleration == 0.0)
      && (signal.daysUntilFull.Some? <==> weekly > 0.0 && s.capacityBytes > 0)
      && (signal.daysUntilFull.Some? ==>
            && (signal.daysUntilFull.value == 0.0 <==> s.usedBytes >= s.capacityBytes)
            && (s.usedBytes < s.capacityBytes ==>
                  s.usedBytes as real + Product(weekly, signal.daysUntilFull.value) == s.capacityBytes as real))
      && DateFits(now, signal.daysUntilFull, signal.projectedFullAt)
  {
    hide Regression, WeeklyTrend, DailyTrend, TrimSpace, GrowthAcceleration, DateFits, ToDuration, DaysInNanos;
    var signal := Signal(now, s, samples);
    var weekly := signal.weeklyGrowthBytesPerDay;
    AccelerationIsShare(weekly, signal.dailyGrowthBytesPerDay);
    if weekly > 0.0 && s.usedBytes < s.capacityBytes {
      FillTime((s.capacityBytes - s.usedBytes) as real, weekly);
    }
    if signal.daysUntilFull.Some? {
      DurationFits(now, signal.daysUntilFull.value);
      FullNow(now);
    }
    NoDate(now);
  }

  lemma FullNow(now: int)
    ensures DateFits(now, Some(0.0), Some(now))
  {
  }

  lemma NoDate(now: int)
    ensures DateFits(now, None, None)
  {
  }
}
