/** Growth anomalies: three rules over the risk signals, and the list they fill. */
module Anomalies {

  import opened Growth
  import opened Keys
  import opened Ordering
  import opened PlanTypes
  import opened RiskSignals
  import opened Text

  const MIB := 1024.0 * 1024.0

  datatype AnomalyType = AccelerationSpike | SuddenGrowth | TrendInstability
  datatype Severity = Critical | Warning

  datatype Anomaly = Anomaly(
    namespace: string, name: string, kind: AnomalyType, severity: Severity, time: int, workload: WorkloadRef,
    weeklyGrowthBytesPerDay: real, dailyGrowthBytesPerDay: real, growthAcceleration: real, confidenceR2: real)

  function TypeName(t: AnomalyType): string {
    match t
    case AccelerationSpike => "acceleration_spike"
    case SuddenGrowth => "sudden_growth"
    case TrendInstability => "trend_instability"
  }

  /** The place of a type among the three, by name. */
  function TypeRank(t: AnomalyType): nat {
    match t
    case AccelerationSpike => 0
    case SuddenGrowth => 1
    case TrendInstability => 2
  }

  lemma TypeRankIsByName(t: AnomalyType, u: AnomalyType)
    ensures TypeRank(t) < TypeRank(u) <==> StringLess(TypeName(t), TypeName(u))
  {
    assert TypeName(AccelerationSpike)[0] == 'a' && TypeName(SuddenGrowth)[0] == 's';
    assert TypeName(TrendInstability)[0] == 't';
    StringLessIrreflexive(TypeName(t));
  }

  lemma StringLessIrreflexive(s: string)
    ensures !StringLess(s, s)
  {
    if StringLess(s, s) {
      StringLessAsymmetric(s, s);
    }
  }

  function SeverityRank(s: Severity): nat {
    match s
    case Critical => 0
    case Warning => 1
  }

  predicate AnomalyLess(a: Anomaly, b: Anomaly) {
    if SeverityRank(a.severity) != SeverityRank(b.severity) then SeverityRank(a.severity) < SeverityRank(b.severity)
    else if a.namespace != b.namespace then StringLess(a.namespace, b.namespace)
    else if a.name != b.name then StringLess(a.name, b.name)
    else TypeRank(a.kind) < TypeRank(b.kind)
  }

  function MakeAnomaly(now: int, s: RiskSignal, ref: WorkloadRef, kind: AnomalyType, severity: Severity): Anomaly {
    Anomaly(s.namespace, s.name, kind, severity, now, ref, s.weeklyGrowthBytesPerDay, s.dailyGrowthBytesPerDay,
            s.growthAcceleration, s.confidenceR2)
  }

  predicate Spikes(s: RiskSignal) {
    s.weeklyGrowthBytesPerDay > 0.0 && s.growthAcceleration >= 0.75
  }

  predicate Unstable(s: RiskSignal) {
    Abs(s.weeklyGrowthBytesPerDay) > 10.0 * MIB && s.confidenceR2 > 0.0 && s.confidenceR2 < 0.35
  }

  predicate GrowsSuddenly(s: RiskSignal) {
    && s.weeklyGrowthBytesPerDay > 0.0
    && s.dailyGrowthBytesPerDay > s.weeklyGrowthBytesPerDay * 2.5
    && s.dailyGrowthBytesPerDay > 100.0 * MIB
  }

  const NO_WORKLOAD := WorkloadRef("", "", "")

  function OwnerOf(s: RiskSignal, workloads: map<Key, WorkloadRef>): WorkloadRef {
    var key := KeyOf(s.namespace, s.name);
    if key in workloads then workloads[key] else NO_WORKLOAD
  }

  /** What one signal contributes, rule by rule. */
  function AnomaliesOf(now: int, s: RiskSignal, ref: WorkloadRef): seq<Anomaly> {
    (if Spikes(s) then
       [MakeAnomaly(now, s, ref, AccelerationSpike, if s.growthAcceleration >= 1.50 then Critical else Warning)]
     else [])
    + (if Unstable(s) then [MakeAnomaly(now, s, ref, TrendInstability, Warning)] else [])
    + (if GrowsSuddenly(s) then [MakeAnomaly(now, s, ref, SuddenGrowth, Critical)] else [])
  }

  function AllAnomalies(now: int, signals: seq<RiskSignal>, workloads: map<Key, WorkloadRef>): seq<Anomaly> {
    if signals == [] then []
    else
      var last := signals[|signals| - 1];
      AllAnomalies(now, signals[..|signals| - 1], workloads) + AnomaliesOf(now, last, OwnerOf(last, workloads))
  }

  lemma AnomalyLessIsStrictWeak()
    ensures StrictWeak(AnomalyLess)
  {
    StringOrder();
  }

  method DetectPVCAnomalies(now: int, signals: seq<RiskSignal>, workloads: map<Key, WorkloadRef>)
    returns (out: seq<Anomaly>)
    ensures Permutation(out, AllAnomalies(now, signals, workloads))
    ensures Sorted(AnomalyLess, out)
  {
    hide Spikes, Unstable, GrowsSuddenly, AnomalyLess;
    out := [];
    for i := 0 to |signals|
      invariant out == AllAnomalies(now, signals[..i], workloads)
    {
      assert signals[..i + 1][..i] == signals[..i];
      var s := signals[i];
      var ref := OwnerOf(s, workloads);
      ghost var before := out;
      if Spikes(s) {
        var severity := if s.growthAcceleration >= 1.50 then Critical else Warning;
        out := out + [MakeAnomaly(now, s, ref, AccelerationSpike, severity)];
      }
      if Unstable(s) {
        out := out + [MakeAnomaly(now, s, ref, TrendInstability, Warning)];
      }
      if GrowsSuddenly(s) {
        out := out + [MakeAnomaly(now, s, ref, SuddenGrowth, Critical)];
      }
      assert out == before + AnomaliesOf(now, s, ref);
    }
    assert signals[..|signals|] == signals;
    AnomalyLessIsStrictWeak();
    out := SortSlice(out, AnomalyLess);
  }

  // ---------------------------------------------------------------------------
  // Coherence
  // ---------------------------------------------------------------------------

  /** Every anomaly is some signal's, by one of its rules. */
  lemma {:induction false} AnomalyComesFrom(now: int, signals: seq<RiskSignal>, workloads: map<Key, WorkloadRef>, a: Anomaly)
    returns (i: nat)
    requires a in AllAnomalies(now, signals, workloads)
    ensures i < |signals| && a in AnomaliesOf(now, signals[i], OwnerOf(signals[i], workloads))
  {
    hide AnomaliesOf;
    var front, last := signals[..|signals| - 1], signals[|signals| - 1];
    if a in AllAnomalies(now, front, workloads) {
      i := AnomalyComesFrom(now, front, workloads, a);
    } else {
      i := |signals| - 1;
    }
  }

  lemma {:induction false} AnomaliesIncluded(now: int, signals: seq<RiskSignal>, workloads: map<Key, WorkloadRef>, i: nat)
    requires i < |signals|
    ensures forall a :: a in AnomaliesOf(now, signals[i], OwnerOf(signals[i], workloads)) ==>
              a in AllAnomalies(now, signals, workloads)
  {
    hide AnomaliesOf;
    if i < |signals| - 1 {
      AnomaliesIncluded(now, signals[..|signals| - 1], workloads, i);
    }
  }

  /** The signal's acceleration is the one computed from its two trends. */
  ghost predicate WellFormed(s: RiskSignal) {
    s.growthAcceleration == GrowthAcceleration(s.weeklyGrowthBytesPerDay, s.dailyGrowthBytesPerDay)
  }

  lemma AccelerationBound(weekly: real, daily: real)
    requires weekly > 0.0 && daily > weekly * 2.5
    ensures GrowthAcceleration(weekly, daily) > 1.5
  {
    var room := daily - weekly;
    assert room / weekly * weekly == room;
  }

  /** Among the anomalies of the signals a reconcile builds, sudden growth never comes without a critical spike. */
  lemma SuddenGrowthIsCriticalSpike(
    now: int, summaries: seq<PVCSummary>, samples: seq<seq<Sample>>, workloads: map<Key, WorkloadRef>,
    out: seq<Anomaly>, a: Anomaly)
    requires |samples| == |summaries|
    requires Permutation(out, AllAnomalies(now, Signals(now, summaries, samples), workloads))
    requires a in out && a.kind == SuddenGrowth
    ensures a.(kind := AccelerationSpike) in out && a.severity == Critical
  {
    hide Signal, AllAnomalies, AnomaliesOf;
    var signals := Signals(now, summaries, samples);
    InPermutation(out, AllAnomalies(now, signals, workloads), a);
    var i := AnomalyComesFrom(now, signals, workloads, a);
    var ref := OwnerOf(signals[i], workloads);
    assert signals[i] == Signal(now, summaries[i], samples[i]);
    SignalsAreWellFormed(now, summaries[i], samples[i]);
    SuddenGrowthOfSignal(now, signals[i], ref, a);
    AnomaliesIncluded(now, signals, workloads, i);
    InPermutation(AllAnomalies(now, signals, workloads), out, a.(kind := AccelerationSpike));
  }

  lemma InPermutation<T(!new)>(s: seq<T>, t: seq<T>, x: T)
    requires Permutation(s, t) && x in s
    ensures x in t
  {
    assert x in multiset(s);
  }

  lemma SignalsAreWellFormed(now: int, s: PVCSummary, samples: seq<Sample>)
    ensures WellFormed(Signal(now, s, samples))
  {
    hide Regression, ProjectedFull;
  }

  lemma SuddenGrowthOfSignal(now: int, s: RiskSignal, ref: WorkloadRef, a: Anomaly)
    requires WellFormed(s) && a in AnomaliesOf(now, s, ref) && a.kind == SuddenGrowth
    ensures a.severity == Critical && a.(kind := AccelerationSpike) in AnomaliesOf(now, s, ref)
  {
    hide GrowthAcceleration;
    AccelerationBound(s.weeklyGrowthBytesPerDay, s.dailyGrowthBytesPerDay);
    assert AnomaliesOf(now, s, ref)[0] == MakeAnomaly(now, s, ref, AccelerationSpike, Critical);
  }

  /** A PVC all of whose samples are from the last day has no acceleration and neither growth flag. */
  lemma YoungPVCIsCalm(now: int, s: PVCSummary, samples: seq<Sample>, ref: WorkloadRef)
    requires forall i :: 0 <= i < |samples| ==> now - RISK_ACCELERATION_WINDOW <= samples[i].timestamp
    ensures var signal := Signal(now, s, samples);
            && signal.growthAcceleration == 0.0
            && forall a :: a in AnomaliesOf(now, signal, ref) ==> a.kind == TrendInstability
  {
    hide AnomaliesOf;
    YoungTrends(now, s, samples);
    CalmSignal(now, Signal(now, s, samples), ref);
  }

  /** Both windows hold every sample. */
  lemma YoungTrends(now: int, s: PVCSummary, samples: seq<Sample>)
    requires forall i :: 0 <= i < |samples| ==> now - RISK_ACCELERATION_WINDOW <= samples[i].timestamp
    ensures Signal(now, s, samples).dailyGrowthBytesPerDay == Signal(now, s, samples).weeklyGrowthBytesPerDay
    ensures Signal(now, s, samples).growthAcceleration == 0.0
  {
    hide Regression, ProjectedFull, GrowthAcceleration, Since, TrimSpace;
    WindowsHoldAll(now, samples);
    var (weekly, _) := WeeklyTrend(now, s, samples);
    assert DailyTrend(now, s, samples) == weekly;
    NoAcceleration(weekly);
  }

  lemma WindowsHoldAll(now: int, samples: seq<Sample>)
    requires forall i :: 0 <= i < |samples| ==> now - RISK_ACCELERATION_WINDOW <= samples[i].timestamp
    ensures Since(samples, now - RISK_ACCELERATION_WINDOW) == samples
    ensures Since(samples, now - RISK_TREND_WINDOW) == samples
  {
    hide Since;
    SinceAll(samples, now - RISK_ACCELERATION_WINDOW);
    SinceAll(samples, now - RISK_TREND_WINDOW);
  }

  lemma CalmSignal(now: int, s: RiskSignal, ref: WorkloadRef)
    requires s.growthAcceleration == 0.0 && s.dailyGrowthBytesPerDay == s.weeklyGrowthBytesPerDay
    ensures forall a :: a in AnomaliesOf(now, s, ref) ==> a.kind == TrendInstability
  {
    hide Unstable;
    assert !Spikes(s) && !GrowsSuddenly(s);
  }

  lemma NoAcceleration(growth: real)
    ensures GrowthAcceleration(growth, growth) == 0.0
  {
    assert growth - growth == 0.0;
  }

  ghost predicate DistinctPVCs(signals: seq<RiskSignal>) {
    forall i, j :: 0 <= i < j < |signals| ==>
      (signals[i].namespace, signals[i].name) != (signals[j].namespace, signals[j].name)
  }

  ghost predicate SamePVCAndType(a: Anomaly, b: Anomaly) {
    a.namespace == b.namespace && a.name == b.name && a.kind == b.kind
  }

  ghost predicate AtMostOneEach(anomalies: seq<Anomaly>) {
    forall i, j :: 0 <= i < j < |anomalies| ==> !SamePVCAndType(anomalies[i], anomalies[j])
  }

  lemma {:induction false} OnePerPVCAndType(now: int, signals: seq<RiskSignal>, workloads: map<Key, WorkloadRef>)
    requires DistinctPVCs(signals)
    ensures AtMostOneEach(AllAnomalies(now, signals, workloads))
  {
    if signals != [] {
      var front, last := signals[..|signals| - 1], signals[|signals| - 1];
      OnePerPVCAndType(now, front, workloads);
      var before, more := AllAnomalies(now, front, workloads), AnomaliesOf(now, last, OwnerOf(last, workloads));
      OwnAnomalies(now, last, OwnerOf(last, workloads));
      hide AnomaliesOf;
      forall i, j | 0 <= i < |before| && 0 <= j < |more| ensures !SamePVCAndType(before[i], more[j]) {
        var k := AnomalyComesFrom(now, front, workloads, before[i]);
        OwnAnomalies(now, front[k], OwnerOf(front[k], workloads));
      }
      hide SamePVCAndType;
      AppendAtMostOneEach(before, more);
    }
  }

  lemma OwnAnomalies(now: int, s: RiskSignal, ref: WorkloadRef)
    ensures AtMostOneEach(AnomaliesOf(now, s, ref))
    ensures forall a :: a in AnomaliesOf(now, s, ref) ==> a.namespace == s.namespace && a.name == s.name
  {
  }

  lemma AppendAtMostOneEach(a: seq<Anomaly>, b: seq<Anomaly>)
    requires AtMostOneEach(a) && AtMostOneEach(b)
    requires forall i, j :: 0 <= i < |a| && 0 <= j < |b| ==> !SamePVCAndType(a[i], b[j])
    ensures AtMostOneEach(a + b)
  {
  }

  /** With distinct PVCs, a reconcile reports at most one anomaly per PVC and type, in one order only. */
  lemma AnomaliesDetermined(
    now: int, signals: seq<RiskSignal>, workloads: map<Key, WorkloadRef>, out: seq<Anomaly>, out': seq<Anomaly>)
    requires DistinctPVCs(signals)
    requires Permutation(out, AllAnomalies(now, signals, workloads)) && Sorted(AnomalyLess, out)
    requires Permutation(out', AllAnomalies(now, signals, workloads)) && Sorted(AnomalyLess, out')
    ensures out == out'
    ensures AtMostOneEach(out)
  {
    var all := AllAnomalies(now, signals, workloads);
    OnePerPVCAndType(now, signals, workloads);
    StringOrder();
    assert Separated(AnomalyLess, all);
    SeparatedPermutes(AnomalyLess, all, out);
    SortUnique(AnomalyLess, out, out');
    forall i, j | 0 <= i < j < |out| ensures !SamePVCAndType(out[i], out[j]) {
      var x, y := out[i], out[j];
      assert AnomalyLess(x, y) || AnomalyLess(y, x);
      SeparatedAreDifferent(all, out, i, j);
    }
  }

  lemma SeparatedAreDifferent(all: seq<Anomaly>, out: seq<Anomaly>, i: nat, j: nat)
    requires Permutation(out, all) && AtMostOneEach(all) && i < j < |out|
    requires AnomalyLess(out[i], out[j]) || AnomalyLess(out[j], out[i])
    ensures !SamePVCAndType(out[i], out[j])
  {
    StringOrder();
    assert out[i] != out[j];
    assert out[i] in multiset(all) && out[j] in multiset(all);
    var k :| 0 <= k < |all| && all[k] == out[i];
    var l :| 0 <= l < |all| && all[l] == out[j];
  }
}
