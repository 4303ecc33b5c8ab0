/**
 A PVC's days until full are predicted twice: in its summary from all samples, and in its risk
 signal from those of the last week. For which instants of sampling the two always agree.
 */
module FillPredictions {

  import opened Growth
  import opened GrowthInvariance
  import opened Options
  import opened PlanTypes
  import opened RiskSignals
  import opened Text

  /** `s` is what buildSummary made of these samples. */
  ghost predicate Summarises(s: PVCSummary, samples: seq<Sample>) {
    var growth := Regression(samples, s.capacityBytes);
    && s.growthBytesPerDay == growth.growthBytesPerDay && s.confidenceR2 == growth.confidenceR2
    && s.daysUntilFull == growth.daysUntilFull
    && (samples != [] ==> s.usedBytes == samples[|samples| - 1].usedBytes)
  }

  lemma SummarySummarises(i: SummaryInput)
    ensures Summarises(Summary(i), i.samples)
  {
    hide Regression;
  }

  function Cutoff(now: int): int { now - RISK_TREND_WINDOW }

  /** The weekly trend is fitted to all samples: the window holds every one, or too few to be used. */
  ghost predicate WholeHistoryInWindow(now: int, samples: seq<Sample>) {
    || |Since(samples, Cutoff(now))| < 2
    || forall i :: 0 <= i < |samples| ==> Cutoff(now) <= samples[i].timestamp
  }

  // ---------------------------------------------------------------------------
  // When they agree
  // ---------------------------------------------------------------------------

  lemma SamePrediction(s: PVCSummary, samples: seq<Sample>, now: int)
    requires Summarises(s, samples)
    ensures ProjectedFull(now, s.usedBytes, s.capacityBytes, s.growthBytesPerDay).0 == s.daysUntilFull
  {
    hide Points, RSquared;
    if samples != [] {
      DaysUntilFullMeaning(samples, s.capacityBytes);
    }
  }

  lemma {:induction false} SinceMembers(samples: seq<Sample>, since: int)
    ensures forall x :: x in Since(samples, since) ==> x in samples
  {
    if samples != [] {
      SinceMembers(samples[..|samples| - 1], since);
    }
  }

  lemma SameSecondHasNoTrend(samples: seq<Sample>, capacity: int)
    requires SameSecond(samples)
    ensures Regression(samples, capacity) == NO_GROWTH
  {
    hide Points, Moments.XSpread, RSquared;
    if samples != [] {
      DenominatorGuard(samples, UnixSeconds(samples[0].timestamp));
    }
  }

  lemma SameSecondWeek(samples: seq<Sample>, now: int)
    requires SameSecond(samples)
    ensures SameSecond(WeeklySamples(now, samples))
  {
    hide Since, UnixSeconds;
    SinceMembers(samples, Cutoff(now));
    var week := WeeklySamples(now, samples);
    forall i, j | 0 <= i < |week| && 0 <= j < |week|
      ensures UnixSeconds(week[i].timestamp) == UnixSeconds(week[j].timestamp)
    {
      assert week[i] in samples && week[j] in samples;
    }
  }

  lemma WeeklyTrendIsSummarys(now: int, s: PVCSummary, samples: seq<Sample>)
    requires Summarises(s, samples)
    requires WholeHistoryInWindow(now, samples) || SameSecond(samples)
    ensures WeeklyTrend(now, s, samples) == (s.growthBytesPerDay, s.confidenceR2)
  {
    hide Regression, SameSecond;
    if SameSecond(samples) {
      SameSecondHasNoTrend(samples, s.capacityBytes);
      SameSecondWeek(samples, now);
      SameSecondHasNoTrend(WeeklySamples(now, samples), s.capacityBytes);
    } else {
      if |Since(samples, Cutoff(now))| >= 2 {
        SinceAll(samples, Cutoff(now));
      }
      assert WeeklySamples(now, samples) == samples;
    }
  }

  /**
   When the weekly window holds every sample, or fewer than two, or all samples fall in one
   second, the risk signal has the growth, confidence and days until full of the summary.
   */
  lemma FillPredictionsAgree(now: int, i: SummaryInput)
    requires WholeHistoryInWindow(now, i.samples) || SameSecond(i.samples)
    ensures var s := Summary(i);
            var signal := Signal(now, s, i.samples);
            && signal.weeklyGrowthBytesPerDay == s.growthBytesPerDay
            && signal.confidenceR2 == s.confidenceR2
            && signal.daysUntilFull == s.daysUntilFull
  {
    SummarySummarises(i);
    var s := Summary(i);
    hide Summary, Summarises, ProjectedFull, GrowthAcceleration, DailyTrend, WeeklyTrend, TrimSpace,
      WholeHistoryInWindow, SameSecond;
    WeeklyTrendIsSummarys(now, s, i.samples);
    SamePrediction(s, i.samples, now);
  }

  // ---------------------------------------------------------------------------
  // When they need not
  // ---------------------------------------------------------------------------

  /** The same instants, with nothing used before `cutoff` and one byte from then on. */
  function SteppedSample(s: Sample, cutoff: int): Sample {
    s.(usedBytes := if s.timestamp < cutoff then 0 else 1)
  }

  function Stepped(samples: seq<Sample>, cutoff: int): (r: seq<Sample>)
    ensures |r| == |samples|
  {
    seq(|samples|, i requires 0 <= i < |samples| => SteppedSample(samples[i], cutoff))
  }

  /** Points on the two levels of a step at x = 0. */
  ghost predicate OnStep(p: seq<Point>) {
    forall i :: 0 <= i < |p| ==> (p[i].y == 0.0 && p[i].x <= 0.0) || (p[i].y == 1.0 && p[i].x >= 0.0)
  }

  lemma NextStep(m: Moments, q: Point)
    ensures m.Add(q).n == m.n + 1.0 && m.Add(q).x == m.x + q.x
    ensures q.y == 0.0 ==> m.Add(q).y == m.y && m.Add(q).xy == m.xy
    ensures q.y == 1.0 ==> m.Add(q).y == m.y + 1.0 && m.Add(q).xy == m.xy + q.x
  {
    AddFields(m, q.x, q.y);
    assert q == Point(q.x, q.y);
    hide Moments.Add;
    assert q.y == 0.0 ==> q.x * q.y == 0.0;
    assert q.y == 1.0 ==> q.x * q.y == q.x;
  }

  lemma {:induction false} StepBounds(p: seq<Point>)
    requires OnStep(p)
    ensures var m := MomentsOf(p); 0.0 <= m.y <= m.n && m.xy >= 0.0 && m.x - m.xy <= 0.0
  {
    if p != [] {
      hide Moments.Add;
      StepBounds(p[..|p| - 1]);
      NextStep(MomentsOf(p[..|p| - 1]), p[|p| - 1]);
    }
  }

  lemma {:induction false} StepMoments(p: seq<Point>, i: nat)
    requires OnStep(p) && i < |p|
    ensures var m := MomentsOf(p);
            && (p[i].y == 0.0 ==> m.y <= m.n - 1.0 && m.x - m.xy <= p[i].x)
            && (p[i].y == 1.0 ==> m.y >= 1.0 && m.xy >= p[i].x)
  {
    hide Moments.Add;
    var front := p[..|p| - 1];
    StepBounds(front);
    NextStep(MomentsOf(front), p[|p| - 1]);
    if i < |p| - 1 {
      StepMoments(front, i);
    }
  }

  lemma Cross(n: real, x: real, y: real, xy: real)
    requires 0.0 < y < n && xy >= 0.0 && x - xy <= 0.0
    requires xy > 0.0 || x - xy < 0.0
    ensures n * xy - x * y > 0.0
  {
    var below, left := n - y, xy - x;
    assert n * xy - x * y == below * xy + left * y;
    assert below * xy >= 0.0 && left * y >= 0.0;
    assert xy > 0.0 ==> below * xy > 0.0;
    assert left > 0.0 ==> left * y > 0.0;
  }

  /** A step through points of both levels, not all at its edge, rises. */
  lemma StepRises(p: seq<Point>, i: nat, j: nat)
    requires OnStep(p) && i < |p| && j < |p| && p[i].y == 0.0 && p[j].y == 1.0
    requires exists k :: 0 <= k < |p| && p[k].x != 0.0
    ensures MomentsOf(p).XYSpread() > 0.0
  {
    var k :| 0 <= k < |p| && p[k].x != 0.0;
    StepBounds(p);
    StepMoments(p, i);
    StepMoments(p, j);
    StepMoments(p, k);
    var m := MomentsOf(p);
    hide MomentsOf, Moments.XYSpread;
    StepCrosses(m, p[k]);
  }

  lemma StepCrosses(m: Moments, q: Point)
    requires 0.0 < m.y < m.n && m.xy >= 0.0 && m.x - m.xy <= 0.0
    requires (q.y == 0.0 && q.x < 0.0 && m.x - m.xy <= q.x) || (q.y == 1.0 && q.x > 0.0 && m.xy >= q.x)
    ensures m.XYSpread() > 0.0
  {
    Cross(m.n, m.x, m.y, m.xy);
  }

  lemma SteppedPoints(samples: seq<Sample>, cutoff: int)
    ensures OnStep(Points(Stepped(samples, cutoff), UnixSeconds(cutoff)))
  {
    forall i | 0 <= i < |samples|
      ensures var q := ToPoint(SteppedSample(samples[i], cutoff), UnixSeconds(cutoff));
              (q.y == 0.0 && q.x <= 0.0) || (q.y == 1.0 && q.x >= 0.0)
    {
      SecondsInOrder(samples[i].timestamp, cutoff);
    }
  }

  lemma SecondsInOrder(t: int, cutoff: int)
    ensures t < cutoff ==> UnixSeconds(t) <= UnixSeconds(cutoff)
    ensures t >= cutoff ==> UnixSeconds(t) >= UnixSeconds(cutoff)
  {
  }

  lemma SteppedSeconds(samples: seq<Sample>, cutoff: int)
    requires !SameSecond(samples)
    ensures !SameSecond(Stepped(samples, cutoff))
    ensures exists k :: 0 <= k < |samples| && Points(Stepped(samples, cutoff), UnixSeconds(cutoff))[k].x != 0.0
  {
    hide UnixSeconds;
    var r := Stepped(samples, cutoff);
    var i, j :| 0 <= i < |samples| && 0 <= j < |samples|
                && UnixSeconds(samples[i].timestamp) != UnixSeconds(samples[j].timestamp);
    assert UnixSeconds(r[i].timestamp) != UnixSeconds(r[j].timestamp);
    var p := Points(r, UnixSeconds(cutoff));
    NotAtAnchor(r[i], r[j], UnixSeconds(cutoff));
    assert p[i].x != 0.0 || p[j].x != 0.0;
  }

  lemma NotAtAnchor(s: Sample, t: Sample, anchor: int)
    requires UnixSeconds(s.timestamp) != UnixSeconds(t.timestamp)
    ensures ToPoint(s, anchor).x != 0.0 || ToPoint(t, anchor).x != 0.0
  {
  }

  lemma PositiveRatio(a: real, b: real)
    requires a > 0.0 && b > 0.0
    ensures a / b > 0.0
  {
  }

  lemma RisingIsGrowth(samples: seq<Sample>, anchor: int, capacity: int)
    requires !SameSecond(samples) && MomentsOf(Points(samples, anchor)).XYSpread() > 0.0
    ensures Regression(samples, capacity).growthBytesPerDay > 0.0
  {
    var first := UnixSeconds(samples[0].timestamp);
    DenominatorGuard(samples, anchor);
    DenominatorGuard(samples, first);
    AnchorInvariance(samples, anchor, first);
    hide UnixSeconds, Points, MomentsOf, SameSecond, Moments.XSpread, Moments.XYSpread, RSquared, Regression;
    var m := MomentsOf(Points(samples, anchor));
    PositiveRatio(m.XYSpread(), m.XSpread());
    SlopeIsGrowth(samples, MomentsOf(Points(samples, first)), capacity);
  }

  lemma SteppedLevels(samples: seq<Sample>, cutoff: int, i: nat, j: nat)
    requires i < |samples| && j < |samples| && samples[i].timestamp < cutoff <= samples[j].timestamp
    ensures var p := Points(Stepped(samples, cutoff), UnixSeconds(cutoff)); p[i].y == 0.0 && p[j].y == 1.0
  {
    hide UnixSeconds;
  }

  /** All samples together show growth. */
  lemma SteppedGrows(samples: seq<Sample>, cutoff: int, capacity: int, i: nat, j: nat)
    requires !SameSecond(samples) && i < |samples| && j < |samples|
    requires samples[i].timestamp < cutoff <= samples[j].timestamp
    ensures Regression(Stepped(samples, cutoff), capacity).growthBytesPerDay > 0.0
  {
    var edge := UnixSeconds(cutoff);
    SteppedPoints(samples, cutoff);
    SteppedSeconds(samples, cutoff);
    SteppedLevels(samples, cutoff, i, j);
    hide UnixSeconds, Points, MomentsOf, OnStep, SameSecond, Stepped, Moments.XYSpread, Regression;
    StepRises(Points(Stepped(samples, cutoff), edge), i, j);
    RisingIsGrowth(Stepped(samples, cutoff), edge, capacity);
  }

  lemma {:induction false} SinceStepped(samples: seq<Sample>, cutoff: int)
    ensures |Since(Stepped(samples, cutoff), cutoff)| == |Since(samples, cutoff)|
    ensures forall s :: s in Since(Stepped(samples, cutoff), cutoff) ==> s.usedBytes == 1
  {
    if samples != [] {
      SinceStepped(samples[..|samples| - 1], cutoff);
      assert Stepped(samples, cutoff)[..|samples| - 1] == Stepped(samples[..|samples| - 1], cutoff);
    }
  }

  lemma {:induction false} LevelMoments(p: seq<Point>)
    requires forall i :: 0 <= i < |p| ==> p[i].y == 1.0
    ensures MomentsOf(p).y == MomentsOf(p).n && MomentsOf(p).xy == MomentsOf(p).x
  {
    if p != [] {
      var front, last := p[..|p| - 1], p[|p| - 1];
      LevelMoments(front);
      AddFields(MomentsOf(front), last.x, last.y);
      hide Moments.Add;
    }
  }

  /** Samples of one byte each show none. */
  lemma LevelIsFlat(samples: seq<Sample>, capacity: int)
    requires forall s :: s in samples ==> s.usedBytes == 1
    ensures Regression(samples, capacity).growthBytesPerDay == 0.0
  {
    if |samples| >= 2 {
      var p := Points(samples, UnixSeconds(samples[0].timestamp));
      forall i | 0 <= i < |p| ensures p[i].y == 1.0 {
        assert samples[i] in samples;
      }
      LevelMoments(p);
      var m := MomentsOf(p);
      hide MomentsOf, Points, RSquared;
      assert m.XYSpread() == 0.0;
    }
  }

  /**
   For all other instants the two can contradict each other: with one byte written when the
   window opens, the summary predicts a day and the risk signal none.
   */
  lemma FillPredictionsCanDisagree(now: int, i: SummaryInput)
    requires CapacityOf(i.watched, i.requested) > 0
    requires !WholeHistoryInWindow(now, i.samples) && !SameSecond(i.samples)
    ensures var stepped := i.(samples := Stepped(i.samples, Cutoff(now)));
            && Summary(stepped).daysUntilFull.Some?
            && Signal(now, Summary(stepped), stepped.samples).daysUntilFull.None?
  {
    var stepped := i.(samples := Stepped(i.samples, Cutoff(now)));
    var s := Summary(stepped);
    SummarySummarises(stepped);
    var k, j := BothSides(now, i.samples);
    hide Regression, Since, Stepped, SameSecond, Cutoff;
    SteppedGrows(i.samples, Cutoff(now), s.capacityBytes, k, j);
    DaysUntilFullMeaning(stepped.samples, s.capacityBytes);
    SinceStepped(i.samples, Cutoff(now));
    LevelIsFlat(Since(stepped.samples, Cutoff(now)), s.capacityBytes);
    assert |Since(i.samples, Cutoff(now))| >= 2;
    hide WholeHistoryInWindow;
    FlatSignal(now, s, stepped.samples);
  }

  lemma FlatSignal(now: int, s: PVCSummary, samples: seq<Sample>)
    requires |Since(samples, Cutoff(now))| >= 2
    requires Regression(Since(samples, Cutoff(now)), s.capacityBytes).growthBytesPerDay == 0.0
    ensures Signal(now, s, samples).daysUntilFull.None?
  {
    hide Regression, Since, DailyTrend, TrimSpace, GrowthAcceleration;
  }

  lemma {:induction false} SinceFinds(samples: seq<Sample>, since: int)
    ensures Since(samples, since) != [] ==> exists j :: 0 <= j < |samples| && since <= samples[j].timestamp
  {
    SinceMembers(samples, since);
    SinceIsRecent(samples, since);
    if Since(samples, since) != [] {
      assert Since(samples, since)[0] in samples;
    }
  }

  lemma {:induction false} SinceIsRecent(samples: seq<Sample>, since: int)
    ensures forall x :: x in Since(samples, since) ==> since <= x.timestamp
  {
    if samples != [] {
      SinceIsRecent(samples[..|samples| - 1], since);
    }
  }

  lemma BothSides(now: int, samples: seq<Sample>) returns (i: nat, j: nat)
    requires !WholeHistoryInWindow(now, samples)
    ensures i < |samples| && j < |samples| && samples[i].timestamp < Cutoff(now) <= samples[j].timestamp
  {
    i :| 0 <= i < |samples| && !(Cutoff(now) <= samples[i].timestamp);
    SinceFinds(samples, Cutoff(now));
    hide Since;
    j :| 0 <= j < |samples| && Cutoff(now) <= samples[j].timestamp;
  }

  ghost predicate SameInstants(s: seq<Sample>, t: seq<Sample>) {
    |s| == |t| && forall i :: 0 <= i < |s| ==> s[i].timestamp == t[i].timestamp
  }

  ghost predicate AgreeFor(now: int, i: SummaryInput) {
    Signal(now, Summary(i), i.samples).daysUntilFull == Summary(i).daysUntilFull
  }

  lemma {:induction false} SinceByInstants(s: seq<Sample>, t: seq<Sample>, since: int)
    requires SameInstants(s, t)
    ensures |Since(s, since)| == |Since(t, since)|
  {
    if s != [] {
      SinceByInstants(s[..|s| - 1], t[..|t| - 1], since);
    }
  }

  lemma InstantsDecide(now: int, s: seq<Sample>, t: seq<Sample>)
    requires SameInstants(s, t)
    ensures WholeHistoryInWindow(now, s) <==> WholeHistoryInWindow(now, t)
    ensures SameSecond(s) <==> SameSecond(t)
  {
    SinceByInstants(s, t, Cutoff(now));
    hide Since, UnixSeconds;
  }

  /**
   For given instants of sampling, the two predictions are the same for all usages and
   capacities if and only if the weekly window holds every sample, or fewer than two, or all
   samples fall in one second.
   */
  lemma FillPredictionsAgreeExactly(now: int, i: SummaryInput)
    ensures (forall j: SummaryInput :: SameInstants(j.samples, i.samples) ==> AgreeFor(now, j))
            <==> WholeHistoryInWindow(now, i.samples) || SameSecond(i.samples)
  {
    hide Summary, Signal, WholeHistoryInWindow, SameSecond, Stepped;
    if WholeHistoryInWindow(now, i.samples) || SameSecond(i.samples) {
      forall j: SummaryInput | SameInstants(j.samples, i.samples) ensures AgreeFor(now, j) {
        InstantsDecide(now, j.samples, i.samples);
        FillPredictionsAgree(now, j);
      }
    } else {
      var j := i.(watched := Some(1));
      FillPredictionsCanDisagree(now, j);
      var stepped := j.(samples := Stepped(j.samples, Cutoff(now)));
      SteppedInstants(i.samples, Cutoff(now));
      assert !AgreeFor(now, stepped);
    }
  }

  lemma SteppedInstants(samples: seq<Sample>, cutoff: int)
    ensures SameInstants(Stepped(samples, cutoff), samples)
  {
  }
}
