/** What the rankings of a reconcile show: whose facts, how many, and in which order. */
module ShownRisks {

  import opened Options
  import opened Ordering
  import opened PlanTypes
  import opened Ranking

  /** The risk repeats every fact of the signal. */
  ghost predicate Repeats(r: RiskSummary, s: RiskSignal) {
    && r.namespace == s.namespace && r.name == s.name
    && r.usedBytes == s.usedBytes && r.capacityBytes == s.capacityBytes && r.usageRatio == s.usageRatio
    && r.weeklyGrowthBytesPerDay == s.weeklyGrowthBytesPerDay && r.dailyGrowthBytesPerDay == s.dailyGrowthBytesPerDay
    && r.growthAcceleration == s.growthAcceleration && r.confidenceR2 == s.confidenceR2
    && r.daysUntilFull == s.daysUntilFull && r.projectedFullAt == s.projectedFullAt
    && r.llmInsight == s.llmInsight && r.alertFiring == s.alertFiring
  }

  /** Riskier first: faster growth, then fewer days, then namespace and name. */
  ghost predicate ListedBefore(a: RiskSummary, b: RiskSummary) {
    || a.weeklyGrowthBytesPerDay > b.weeklyGrowthBytesPerDay
    || (a.weeklyGrowthBytesPerDay == b.weeklyGrowthBytesPerDay
        && (|| DaysOrMax(a.daysUntilFull) < DaysOrMax(b.daysUntilFull)
            || (DaysOrMax(a.daysUntilFull) == DaysOrMax(b.daysUntilFull)
                && !WordsLess([b.namespace, b.name], [a.namespace, a.name]))))
  }

  lemma RiskierFirst(a: RiskSignal, b: RiskSignal)
    requires !RiskLess(b, a)
    ensures ListedBefore(ToRiskSummary(a), ToRiskSummary(b))
  {
    WordsOfTwo(b.namespace, b.name, a.namespace, a.name);
    StringOrder();
    hide DaysOrMax, WordsLess, StringLess;
  }

  lemma SummaryRepeats(s: RiskSignal)
    ensures Repeats(ToRiskSummary(s), s)
    ensures forall r :: Repeats(r, s) ==> r == ToRiskSummary(s)
  {
  }

  /** As many as asked for, three where no number is, and never more than there are growing PVCs. */
  ghost predicate AsManyAsAsked(shown: int, candidates: int, topN: int) {
    var most := if topN > 0 then topN else 3;
    shown == if candidates < most then candidates else most
  }

  function HowMany<T>(which: T -> bool, s: seq<T>): nat {
    if s == [] then 0 else HowMany(which, s[..|s| - 1]) + if which(s[|s| - 1]) then 1 else 0
  }

  lemma {:induction false} FilterHolds<T(!new)>(keep: T -> bool, which: T -> bool, s: seq<T>)
    requires forall x :: keep(x) <==> which(x)
    ensures |Filter(keep, s)| == HowMany(which, s)
  {
    if s != [] {
      FilterHolds(keep, which, s[..|s| - 1]);
    }
  }

  predicate GrowsWeekly(s: RiskSignal) { s.weeklyGrowthBytesPerDay > 0.0 }

  /** The signal is among the risks, or would be listed behind all of them. */
  ghost predicate IsShownOrBehind(out: seq<RiskSummary>, s: RiskSignal) {
    || (exists r :: r in out && Repeats(r, s))
    || (forall r, x :: r in out && Repeats(x, s) ==> ListedBefore(r, x))
  }

  /**
   The top risks repeat the facts of growing PVCs, riskiest first; a growing PVC that is not
   among them is ranked behind all of them, and they are as many as asked for.
   */
  lemma TopRisksTell(signals: seq<RiskSignal>, topN: int, out: seq<RiskSummary>)
    requires TopRisks(signals, EffectiveTopN(topN), out)
    ensures AsManyAsAsked(|out|, HowMany(GrowsWeekly, signals), topN)
    ensures forall i, j :: 0 <= i < j < |out| ==> ListedBefore(out[i], out[j])
    ensures forall r :: r in out ==> r.weeklyGrowthBytesPerDay > 0.0 && exists s :: s in signals && Repeats(r, s)
    ensures forall s :: s in signals && s.weeklyGrowthBytesPerDay > 0.0 ==> IsShownOrBehind(out, s)
  {
    var n := EffectiveTopN(topN);
    var top :| TopOf(RiskLess, Filter(Grows, signals), n, top) && out == ToRiskSummaries(top);
    TopIsBest(RiskLess, Filter(Grows, signals), n, top);
    FilterHolds(Grows, GrowsWeekly, signals);
    hide RiskLess, ToRiskSummary, ListedBefore, TopOf, Filter, Repeats, IsShownOrBehind;
    forall i, j | 0 <= i < j < |out| ensures ListedBefore(out[i], out[j]) {
      RiskierFirst(top[i], top[j]);
    }
    forall r | r in out ensures r.weeklyGrowthBytesPerDay > 0.0 && exists s :: s in signals && Repeats(r, s) {
      var i :| 0 <= i < |out| && out[i] == r;
      FilteredTopIsBest(RiskLess, Grows, signals, n, top, top[i]);
      GrowthIsShown(top[i]);
      SummaryRepeats(top[i]);
    }
    forall s | s in signals && s.weeklyGrowthBytesPerDay > 0.0 ensures IsShownOrBehind(out, s) {
      GrowingIsShownOrBehind(signals, n, top, s);
    }
  }

  lemma GrowingIsShownOrBehind(signals: seq<RiskSignal>, n: nat, top: seq<RiskSignal>, s: RiskSignal)
    requires TopOf(RiskLess, Filter(Grows, signals), n, top) && s in signals && Grows(s)
    ensures IsShownOrBehind(ToRiskSummaries(top), s)
  {
    hide RiskLess, ToRiskSummary, ListedBefore, TopOf, Filter, Repeats;
    var out := ToRiskSummaries(top);
    FilteredTopIsBest(RiskLess, Grows, signals, n, top, s);
    SummaryRepeats(s);
    if s in top {
      var i :| 0 <= i < |top| && top[i] == s;
      assert out[i] in out && Repeats(out[i], s);
    } else {
      forall r, x | r in out && Repeats(x, s) ensures ListedBefore(r, x) {
        var i :| 0 <= i < |out| && out[i] == r;
        RiskierFirst(top[i], s);
      }
    }
  }

  // ---------------------------------------------------------------------------
  // The leaderboards
  // ---------------------------------------------------------------------------

  /** The brief repeats the facts of the summary. */
  ghost predicate Briefs(b: Brief, s: PVCSummary) {
    && b.namespace == s.namespace && b.name == s.name && b.usageRatio == s.usageRatio
    && b.growthBytesPerDay == s.growthBytesPerDay && b.daysUntilFull == s.daysUntilFull
    && b.alertFiring == s.alertFiring
  }

  /** A smaller measure first, and namespace and name in dictionary order where it is the same. */
  ghost predicate ListedBy(measure: Brief -> real, a: Brief, b: Brief) {
    || measure(a) < measure(b)
    || (measure(a) == measure(b) && !WordsLess([b.namespace, b.name], [a.namespace, a.name]))
  }

  ghost predicate BoardTells(
    measure: Brief -> real, may: PVCSummary -> bool, items: seq<PVCSummary>, topN: int, out: seq<Brief>)
  {
    && AsManyAsAsked(|out|, HowMany(may, items), topN)
    && (forall i, j :: 0 <= i < j < |out| ==> ListedBy(measure, out[i], out[j]))
    && (forall b :: b in out ==> exists s :: s in items && may(s) && Briefs(b, s))
    && (forall s :: s in items && may(s) ==>
          || (exists b :: b in out && Briefs(b, s))
          || (forall b, x :: b in out && Briefs(x, s) ==> ListedBy(measure, b, x)))
  }

  lemma BriefTells(s: PVCSummary)
    ensures Briefs(ToBrief(s), s)
    ensures forall b :: Briefs(b, s) ==> b == ToBrief(s)
  {
  }

  ghost predicate Lists(less: (PVCSummary, PVCSummary) -> bool, measure: Brief -> real) {
    forall a, b :: !less(b, a) ==> ListedBy(measure, ToBrief(a), ToBrief(b))
  }

  lemma BoardOf(
    less: (PVCSummary, PVCSummary) -> bool, measure: Brief -> real, keep: PVCSummary -> bool, may: PVCSummary -> bool,
    items: seq<PVCSummary>, topN: int, out: seq<Brief>)
    requires Leaderboard(less, keep, items, EffectiveTopN(topN), out) && Lists(less, measure)
    requires forall s :: keep(s) <==> may(s)
    ensures BoardTells(measure, may, items, topN, out)
  {
    var n := EffectiveTopN(topN);
    var top :| TopOf(less, Filter(keep, items), n, top) && out == ToBriefs(top);
    TopIsBest(less, Filter(keep, items), n, top);
    FilterHolds(keep, may, items);
    hide ToBrief, TopOf, Filter, Briefs, ListedBy;
    forall i, j | 0 <= i < j < |out| ensures ListedBy(measure, out[i], out[j]) {
      var x, y := top[i], top[j];
      assert !less(y, x);
    }
    forall b | b in out ensures exists s :: s in items && keep(s) && Briefs(b, s) {
      var i := BriefOf(top, b);
      FilteredTopIsBest(less, keep, items, n, top, top[i]);
      BriefTells(top[i]);
    }
    forall s | s in items && keep(s)
      ensures || (exists b :: b in out && Briefs(b, s))
              || (forall b, x :: b in out && Briefs(x, s) ==> ListedBy(measure, b, x))
    {
      FilteredTopIsBest(less, keep, items, n, top, s);
      BriefTells(s);
      if s in top {
        var i :| 0 <= i < |top| && top[i] == s;
        assert out[i] in out && Briefs(out[i], s);
      } else {
        forall b, x | b in out && Briefs(x, s) ensures ListedBy(measure, b, x) {
          var i := BriefOf(top, b);
          assert !less(s, top[i]);
        }
      }
    }
  }

  lemma KeysInOrder(a: PVCSummary, b: PVCSummary)
    ensures KeyLess(a, b) <==> WordsLess([a.namespace, a.name], [b.namespace, b.name])
  {
    WordsOfTwo(a.namespace, a.name, b.namespace, b.name);
    StringOrder();
    hide WordsLess, StringLess;
  }

  lemma RankingsList()
    ensures Lists(UsageLess, LessFree) && Lists(SoonestLess, Sooner) && Lists(GrowthLess, Faster)
  {
    hide DaysOrMax, KeyLess, WordsLess;
    forall a, b ensures KeyLess(a, b) <==> WordsLess([a.namespace, a.name], [b.namespace, b.name]) {
      KeysInOrder(a, b);
    }
  }

  predicate IsListed(s: PVCSummary) { true }
  predicate WillFill(s: PVCSummary) { s.daysUntilFull.Some? }
  predicate IsRising(s: PVCSummary) { s.growthBytesPerDay > 0.0 }
  predicate IsFiring(s: PVCSummary) { s.alertFiring }

  /**
   The status counts the PVCs and those whose alert fires. Each leaderboard repeats the facts of
   PVCs, in the order of its own measure and then of their names, as many as asked for: all PVCs
   by usage ratio, those that fill by days, those that grow by growth.
   */
  lemma BoardsTell(items: seq<PVCSummary>, topN: int, out: StatusSummary)
    requires Summarizes(items, EffectiveTopN(topN), out)
    ensures out.totalPVCs == |items| && out.alertingPVCs == HowMany(IsFiring, items)
    ensures BoardTells(LessFree, IsListed, items, topN, out.topByUsage)
    ensures BoardTells(Sooner, WillFill, items, topN, out.topBySoonestToFull)
    ensures BoardTells(Faster, IsRising, items, topN, out.topByGrowth)
  {
    RankingsList();
    FilterHolds(Alerts, IsFiring, items);
    hide Leaderboard, Lists, Filter, ListedBy, Briefs, AsManyAsAsked, LessFree, Sooner, Faster, BoardTells;
    BoardOf(UsageLess, LessFree, Any, IsListed, items, topN, out.topByUsage);
    BoardOf(SoonestLess, Sooner, Fills, WillFill, items, topN, out.topBySoonestToFull);
    BoardOf(GrowthLess, Faster, IsGrowing, IsRising, items, topN, out.topByGrowth);
  }
}
