/** The three anomaly rules, as conditions on the trends of a reconcile's signals. */
module AnomalyRules {

  import opened Anomalies
  import opened Growth
  import opened Keys
  import opened Ordering
  import opened PlanTypes
  import opened RiskSignals

  /** The daily trend is at least three quarters above a weekly growth. */
  predicate DailyAccelerates(s: RiskSignal) {
    s.weeklyGrowthBytesPerDay > 0.0 && 4.0 * s.dailyGrowthBytesPerDay >= 7.0 * s.weeklyGrowthBytesPerDay
  }

  /** The daily trend is at least two and a half times a weekly growth. */
  predicate DailyMultiplies(s: RiskSignal) {
    s.weeklyGrowthBytesPerDay > 0.0 && 2.0 * s.dailyGrowthBytesPerDay >= 5.0 * s.weeklyGrowthBytesPerDay
  }

  /** More than 10 MiB a day, up or down, on a line that explains some but less than 35 percent of the usage. */
  predicate FitsBadly(s: RiskSignal) {
    && (s.weeklyGrowthBytesPerDay > 10485760.0 || s.weeklyGrowthBytesPerDay < -10485760.0)
    && 0.0 < s.confidenceR2 && 100.0 * s.confidenceR2 < 35.0
  }

  /** More than two and a half times a weekly growth, and more than 100 MiB a day. */
  predicate Jumps(s: RiskSignal) {
    && s.weeklyGrowthBytesPerDay > 0.0 && 2.0 * s.dailyGrowthBytesPerDay > 5.0 * s.weeklyGrowthBytesPerDay
    && s.dailyGrowthBytesPerDay > 104857600.0
  }

  ghost predicate Rule(kind: AnomalyType, s: RiskSignal) {
    match kind
    case AccelerationSpike => DailyAccelerates(s)
    case SuddenGrowth => Jumps(s)
    case TrendInstability => FitsBadly(s)
  }

  /** The anomaly is about the signal, at this moment, with the owner the index has for the PVC. */
  ghost predicate About(a: Anomaly, now: int, s: RiskSignal, workloads: map<Key, WorkloadRef>) {
    && a.namespace == s.namespace && a.name == s.name && a.time == now
    && a.weeklyGrowthBytesPerDay == s.weeklyGrowthBytesPerDay && a.dailyGrowthBytesPerDay == s.dailyGrowthBytesPerDay
    && a.growthAcceleration == s.growthAcceleration && a.confidenceR2 == s.confidenceR2
    && (KeyOf(s.namespace, s.name) in workloads ==> a.workload == workloads[KeyOf(s.namespace, s.name)])
    && (KeyOf(s.namespace, s.name) !in workloads ==> a.workload == WorkloadRef("", "", ""))
  }

  /** A jump is critical, and a spike of at least two and a half times; all else is a warning. */
  ghost predicate Graded(a: Anomaly, s: RiskSignal) {
    a.severity == Critical <==> a.kind == SuddenGrowth || (a.kind == AccelerationSpike && DailyMultiplies(s))
  }

  lemma AccelerationReaches(weekly: real, daily: real, accel: real, share: real)
    requires weekly > 0.0 && accel == GrowthAcceleration(weekly, daily)
    ensures accel >= share <==> daily >= weekly + Product(share, weekly)
  {
    var gap := daily - weekly;
    assert accel * weekly == gap;
    assert accel >= share ==> accel * weekly >= share * weekly;
    assert accel < share ==> accel * weekly < share * weekly;
  }

  lemma SpikesAreAccelerations(s: RiskSignal)
    requires WellFormed(s)
    ensures Spikes(s) <==> DailyAccelerates(s)
    ensures s.weeklyGrowthBytesPerDay > 0.0 ==> (s.growthAcceleration >= 1.50 <==> DailyMultiplies(s))
  {
    if s.weeklyGrowthBytesPerDay > 0.0 {
      var weekly, daily := s.weeklyGrowthBytesPerDay, s.dailyGrowthBytesPerDay;
      AccelerationReaches(weekly, daily, s.growthAcceleration, 0.75);
      AccelerationReaches(weekly, daily, s.growthAcceleration, 1.5);
      assert Product(0.75, weekly) == 0.75 * weekly && Product(1.5, weekly) == 1.5 * weekly;
    }
    hide GrowthAcceleration, Product;
  }

  lemma RulesOfSignal(now: int, s: RiskSignal, workloads: map<Key, WorkloadRef>, kind: AnomalyType)
    requires WellFormed(s)
    ensures
      var own := AnomaliesOf(now, s, OwnerOf(s, workloads));
      && ((exists a :: a in own && a.kind == kind) <==> Rule(kind, s))
      && (forall a :: a in own ==> About(a, now, s, workloads) && Graded(a, s))
  {
    SpikesAreAccelerations(s);
    hide WellFormed, DailyAccelerates, DailyMultiplies;
    assert Unstable(s) <==> FitsBadly(s);
    assert GrowsSuddenly(s) <==> Jumps(s);
    hide Spikes, Unstable, GrowsSuddenly, FitsBadly, Jumps;
    var own, ref := AnomaliesOf(now, s, OwnerOf(s, workloads)), OwnerOf(s, workloads);
    var spike := MakeAnomaly(now, s, ref, AccelerationSpike, if s.growthAcceleration >= 1.50 then Critical else Warning);
    assert Spikes(s) ==> spike in own;
    assert Unstable(s) ==> MakeAnomaly(now, s, ref, TrendInstability, Warning) in own;
    assert GrowsSuddenly(s) ==> MakeAnomaly(now, s, ref, SuddenGrowth, Critical) in own;
    assert DailyAccelerates(s) ==> s.weeklyGrowthBytesPerDay > 0.0 by { AcceleratingGrows(s); }
  }

  lemma AcceleratingGrows(s: RiskSignal)
    ensures DailyAccelerates(s) ==> s.weeklyGrowthBytesPerDay > 0.0
  {
  }

  /**
   The anomalies of a reconcile are exactly those of the rules: for every signal and kind there is
   one if the rule holds, and every anomaly is of some signal for which its rule holds.
   */
  lemma AnomaliesByRule(
    now: int, summaries: seq<PVCSummary>, samples: seq<seq<Sample>>, workloads: map<Key, WorkloadRef>,
    out: seq<Anomaly>)
    requires |samples| == |summaries|
    requires Permutation(out, AllAnomalies(now, Signals(now, summaries, samples), workloads))
    ensures
      var signals := Signals(now, summaries, samples);
      && (forall i, kind :: 0 <= i < |signals| && Rule(kind, signals[i]) ==>
            exists a :: a in out && a.kind == kind && About(a, now, signals[i], workloads) && Graded(a, signals[i]))
      && (forall a :: a in out ==>
            exists i :: 0 <= i < |signals| && Rule(a.kind, signals[i]) && About(a, now, signals[i], workloads)
                        && Graded(a, signals[i]))
  {
    hide Signal, AllAnomalies, AnomaliesOf, About, Graded, Rule, WellFormed;
    var signals := Signals(now, summaries, samples);
    var all := AllAnomalies(now, signals, workloads);
    forall i | 0 <= i < |signals| ensures WellFormed(signals[i]) {
      assert signals[i] == Signal(now, summaries[i], samples[i]);
      SignalsAreWellFormed(now, summaries[i], samples[i]);
    }
    forall i, kind | 0 <= i < |signals| && Rule(kind, signals[i])
      ensures exists a :: a in out && a.kind == kind && About(a, now, signals[i], workloads) && Graded(a, signals[i])
    {
      RulesOfSignal(now, signals[i], workloads, kind);
      AnomaliesIncluded(now, signals, workloads, i);
      var a :| a in AnomaliesOf(now, signals[i], OwnerOf(signals[i], workloads)) && a.kind == kind;
      InPermutation(all, out, a);
    }
    forall a | a in out
      ensures exists i :: 0 <= i < |signals| && Rule(a.kind, signals[i]) && About(a, now, signals[i], workloads)
                          && Graded(a, signals[i])
    {
      InPermutation(out, all, a);
      var i := AnomalyComesFrom(now, signals, workloads, a);
      RulesOfSignal(now, signals[i], workloads, a.kind);
    }
  }

  /** The words that order anomalies of one severity. */
  function ListedBy(a: Anomaly): seq<string> {
    [a.namespace, a.name, TypeName(a.kind)]
  }

  /** Critical anomalies come first; then namespace, name and kind are in dictionary order. */
  lemma AnomaliesAreListed(out: seq<Anomaly>, i: nat, j: nat)
    requires Sorted(AnomalyLess, out) && i < j < |out|
    ensures out[j].severity == Critical ==> out[i].severity == Critical
    ensures out[i].severity == out[j].severity ==> !WordsLess(ListedBy(out[j]), ListedBy(out[i]))
  {
    var a, b := out[i], out[j];
    assert !AnomalyLess(b, a);
    TypeRankIsByName(b.kind, a.kind);
    WordsOfThree(ListedBy(b), ListedBy(a));
    StringOrder();
    hide TypeName, TypeRank, WordsLess, StringLess;
  }
}
