/** The rankings of a reconcile: top risks and the three leaderboards. */
module Ranking {

  import opened Options
  import opened Ordering
  import opened PlanTypes

  const STATUS_SUMMARY_TOP_N := 3

  /** math.MaxFloat64, the days of a PVC that is not predicted to fill. */
  const MAX_FLOAT64 := 179769313486231570814527423731704356798070567525844996598917476803157260780028538760589558632766878171540458953514382464234321326889464182768467546703537516986049910576551282076245490090389328944075868508455133942304583236903222948165808559332123348274797826204144723168738177180919299881250404026184124858368.0

  // ---------------------------------------------------------------------------
  // Selecting by sorting
  // ---------------------------------------------------------------------------

  function Take<T>(s: seq<T>, n: nat): seq<T> {
    if |s| <= n then s else s[..n]
  }

  /** `top` is what some run of "sort, then keep the first n" makes of the items. */
  ghost predicate TopOf<T(!new)>(less: (T, T) -> bool, items: seq<T>, n: nat, top: seq<T>) {
    exists ranked :: Permutation(ranked, items) && Sorted(less, ranked) && top == Take(ranked, n)
  }

  /** As many as asked for, in order, and nothing left out ranks before anything kept. */
  lemma TopIsBest<T(!new)>(less: (T, T) -> bool, items: seq<T>, n: nat, top: seq<T>)
    requires TopOf(less, items, n, top)
    ensures |top| == if |items| <= n then |items| else n
    ensures Sorted(less, top)
    ensures multiset(top) <= multiset(items)
    ensures forall kept, other :: kept in top && other in multiset(items) - multiset(top) ==> !less(other, kept)
  {
    var ranked :| Permutation(ranked, items) && Sorted(less, ranked) && top == Take(ranked, n);
    PermutationLength(ranked, items);
    TopBeatsRest(less, ranked, |top|);
    hide Sorted, Permutation;
    var rest := ranked[|top|..];
    assert ranked == top + rest && top == ranked[..|top|];
    LeftOver(top, rest, items);
  }

  lemma TopBeatsRest<T(!new)>(less: (T, T) -> bool, ranked: seq<T>, k: nat)
    requires Sorted(less, ranked) && k <= |ranked|
    ensures Sorted(less, ranked[..k])
    ensures forall kept, other :: kept in ranked[..k] && other in ranked[k..] ==> !less(other, kept)
  {
  }

  lemma LeftOver<T(!new)>(top: seq<T>, rest: seq<T>, items: seq<T>)
    requires Permutation(top + rest, items)
    ensures multiset(top) <= multiset(items)
    ensures multiset(items) - multiset(top) == multiset(rest)
    ensures forall x :: x in multiset(rest) ==> x in rest
  {
  }

  /** The selection is a function of which items there are, not of their order. */
  lemma TopDetermined<T(!new)>(
    less: (T, T) -> bool, items: seq<T>, items': seq<T>, n: nat, top: seq<T>, top': seq<T>)
    requires Separated(less, items) && Permutation(items, items')
    requires TopOf(less, items, n, top) && TopOf(less, items', n, top')
    ensures top == top'
  {
    var ranked :| Permutation(ranked, items) && Sorted(less, ranked) && top == Take(ranked, n);
    var ranked' :| Permutation(ranked', items') && Sorted(less, ranked') && top' == Take(ranked', n);
    SeparatedPermutes(less, items, ranked);
    SortUnique(less, ranked, ranked');
  }

  method SortAndTake<T(!new)>(items: seq<T>, less: (T, T) -> bool, n: nat) returns (top: seq<T>)
    requires StrictWeak(less)
    ensures TopOf(less, items, n, top)
  {
    var ranked := SortSlice(items, less);
    top := Take(ranked, n);
  }

  function Filter<T>(keep: T -> bool, s: seq<T>): seq<T> {
    if s == [] then []
    else Filter(keep, s[..|s| - 1]) + if keep(s[|s| - 1]) then [s[|s| - 1]] else []
  }

  lemma {:induction false} FilterCounts<T(!new)>(keep: T -> bool, s: seq<T>, x: T)
    ensures multiset(Filter(keep, s))[x] == if keep(x) then multiset(s)[x] else 0
  {
    if s != [] {
      assert s == s[..|s| - 1] + [s[|s| - 1]];
      FilterCounts(keep, s[..|s| - 1], x);
    }
  }

  lemma FilterPermutes<T(!new)>(keep: T -> bool, s: seq<T>, t: seq<T>)
    requires Permutation(s, t)
    ensures Permutation(Filter(keep, s), Filter(keep, t))
  {
    forall x ensures multiset(Filter(keep, s))[x] == multiset(Filter(keep, t))[x] {
      FilterCounts(keep, s, x);
      FilterCounts(keep, t, x);
    }
  }

  lemma {:induction false} FilterSeparated<T(!new)>(less: (T, T) -> bool, keep: T -> bool, s: seq<T>)
    requires Separated(less, s)
    ensures Separated(less, Filter(keep, s))
    ensures forall x :: x in Filter(keep, s) ==> x in s && keep(x)
  {
    if s != [] {
      FilterSeparated(less, keep, s[..|s| - 1]);
      var front, last := Filter(keep, s[..|s| - 1]), s[|s| - 1];
      forall i | 0 <= i < |front| ensures less(front[i], last) || less(last, front[i]) {
        assert front[i] in front;
        var k :| 0 <= k < |s| - 1 && s[k] == front[i];
      }
    }
  }

  /** Filter, rank, keep the first n: determined by the set of items, when the ranking separates them. */
  lemma FilteredTopDetermined<T(!new)>(
    less: (T, T) -> bool, keep: T -> bool, items: seq<T>, items': seq<T>, n: nat, top: seq<T>, top': seq<T>)
    requires Separated(less, items) && Permutation(items, items')
    requires TopOf(less, Filter(keep, items), n, top) && TopOf(less, Filter(keep, items'), n, top')
    ensures top == top'
  {
    FilterSeparated(less, keep, items);
    FilterPermutes(keep, items, items');
    TopDetermined(less, Filter(keep, items), Filter(keep, items'), n, top, top');
  }

  // ---------------------------------------------------------------------------
  // Top risks
  // ---------------------------------------------------------------------------

  function DaysOrMax(days: Option<real>): real {
    if days.Some? then days.value else MAX_FLOAT64
  }

  predicate RiskLess(a: RiskSignal, b: RiskSignal) {
    if a.weeklyGrowthBytesPerDay == b.weeklyGrowthBytesPerDay then
      var di, dj := DaysOrMax(a.daysUntilFull), DaysOrMax(b.daysUntilFull);
      if di == dj then
        if a.namespace == b.namespace then StringLess(a.name, b.name) else StringLess(a.namespace, b.namespace)
      else di < dj
    else a.weeklyGrowthBytesPerDay > b.weeklyGrowthBytesPerDay
  }

  predicate Grows(s: RiskSignal) { s.weeklyGrowthBytesPerDay > 0.0 }

  function ToRiskSummary(s: RiskSignal): RiskSummary {
    RiskSummary(
      s.namespace, s.name, s.usedBytes, s.capacityBytes, s.usageRatio, s.weeklyGrowthBytesPerDay,
      s.dailyGrowthBytesPerDay, s.growthAcceleration, s.confidenceR2, s.daysUntilFull, s.projectedFullAt,
      s.llmInsight, s.alertFiring)
  }

  function ToRiskSummaries(top: seq<RiskSignal>): (r: seq<RiskSummary>)
    ensures |r| == |top|
  {
    seq(|top|, i requires 0 <= i < |top| => ToRiskSummary(top[i]))
  }

  function EffectiveTopN(topN: int): nat {
    if topN <= 0 then STATUS_SUMMARY_TOP_N else topN
  }

  /** The outcomes buildTopRisks can have, whichever way its sort breaks ties. */
  ghost predicate TopRisks(signals: seq<RiskSignal>, n: nat, out: seq<RiskSummary>) {
    exists top :: TopOf(RiskLess, Filter(Grows, signals), n, top) && out == ToRiskSummaries(top)
  }

  lemma RiskLessIsStrictWeak()
    ensures StrictWeak(RiskLess)
  {
    hide DaysOrMax;
    StringOrder();
  }

  method BuildTopRisks(signals: seq<RiskSignal>, topN: int) returns (out: seq<RiskSummary>)
    ensures TopRisks(signals, EffectiveTopN(topN), out)
  {
    hide RiskLess, ToRiskSummary;
    var n := if topN <= 0 then STATUS_SUMMARY_TOP_N else topN;
    var candidates := [];
    for i := 0 to |signals|
      invariant candidates == Filter(Grows, signals[..i])
    {
      assert signals[..i + 1][..i] == signals[..i];
      if signals[i].weeklyGrowthBytesPerDay > 0.0 {
        candidates := candidates + [signals[i]];
      }
    }
    assert signals[..|signals|] == signals;
    RiskLessIsStrictWeak();
    var ranked := SortSlice(candidates, RiskLess);
    var top := Take(ranked, n);
    out := [];
    for i := 0 to |top|
      invariant out == ToRiskSummaries(top[..i])
    {
      out := out + [ToRiskSummary(top[i])];
    }
    assert top[..|top|] == top;
    assert TopOf(RiskLess, candidates, n, top);
  }

  ghost predicate DistinctSignals(s: seq<RiskSignal>) {
    forall i, j :: 0 <= i < j < |s| ==> (s[i].namespace, s[i].name) != (s[j].namespace, s[j].name)
  }

  lemma DistinctSignalsSeparate(s: seq<RiskSignal>)
    requires DistinctSignals(s)
    ensures Separated(RiskLess, s)
  {
    hide DaysOrMax;
    StringOrder();
  }

  /** For distinct PVCs, the top risks depend on the set of signals only. */
  lemma TopRisksDetermined(
    signals: seq<RiskSignal>, signals': seq<RiskSignal>, n: nat, out: seq<RiskSummary>, out': seq<RiskSummary>)
    requires DistinctSignals(signals) && Permutation(signals, signals')
    requires TopRisks(signals, n, out) && TopRisks(signals', n, out')
    ensures out == out'
  {
    DistinctSignalsSeparate(signals);
    hide RiskLess, Grows, ToRiskSummary;
    var top :| TopOf(RiskLess, Filter(Grows, signals), n, top) && out == ToRiskSummaries(top);
    var top' :| TopOf(RiskLess, Filter(Grows, signals'), n, top') && out' == ToRiskSummaries(top');
    FilteredTopDetermined(RiskLess, Grows, signals, signals', n, top, top');
  }

  lemma FilterKeeps<T(!new)>(keep: T -> bool, s: seq<T>, x: T)
    ensures x in Filter(keep, s) <==> x in s && keep(x)
  {
    FilterCounts(keep, s, x);
    assert x in s <==> x in multiset(s);
    assert x in Filter(keep, s) <==> x in multiset(Filter(keep, s));
  }

  /** What is kept was there, and what was there is kept unless the list is full of no worse ones. */
  lemma FilteredTopIsBest<T(!new)>(less: (T, T) -> bool, keep: T -> bool, items: seq<T>, n: nat, top: seq<T>, x: T)
    requires TopOf(less, Filter(keep, items), n, top)
    ensures x in top ==> x in items && keep(x)
    ensures x in items && keep(x) && x !in top ==> |top| == n && forall kept :: kept in top ==> !less(x, kept)
  {
    var candidates := Filter(keep, items);
    TopIsBest(less, candidates, n, top);
    FilterKeeps(keep, items, x);
    hide TopOf, Filter;
    var left := multiset(candidates) - multiset(top);
    assert |left| == |candidates| - |top|;
    assert x in top <==> x in multiset(top);
    if x in candidates && x !in top {
      assert x in left;
    }
  }

  /** `a` grows faster than `b`, or as fast and is full no later. */
  predicate AtLeastAsRisky(a: RiskSummary, b: RiskSummary) {
    || a.weeklyGrowthBytesPerDay > b.weeklyGrowthBytesPerDay
    || (a.weeklyGrowthBytesPerDay == b.weeklyGrowthBytesPerDay
        && DaysOrMax(a.daysUntilFull) <= DaysOrMax(b.daysUntilFull))
  }

  lemma RankedIsAtLeastAsRisky(a: RiskSignal, b: RiskSignal)
    requires !RiskLess(b, a)
    ensures AtLeastAsRisky(ToRiskSummary(a), ToRiskSummary(b))
  {
    hide DaysOrMax;
  }

  /** The top risks are the fastest growing PVCs, riskiest first; one that is left out is beaten by all of them. */
  lemma TopRisksAreTheFastest(signals: seq<RiskSignal>, n: nat, out: seq<RiskSummary>)
    requires TopRisks(signals, n, out)
    ensures |out| <= n
    ensures forall i, j :: 0 <= i < j < |out| ==> AtLeastAsRisky(out[i], out[j])
    ensures forall i :: 0 <= i < |out| ==>
              out[i].weeklyGrowthBytesPerDay > 0.0 && exists s :: s in signals && ToRiskSummary(s) == out[i]
    ensures forall s :: s in signals && s.weeklyGrowthBytesPerDay > 0.0 ==>
              ToRiskSummary(s) in out || (|out| == n && forall r :: r in out ==> AtLeastAsRisky(r, ToRiskSummary(s)))
  {
    var top :| TopOf(RiskLess, Filter(Grows, signals), n, top) && out == ToRiskSummaries(top);
    TopIsBest(RiskLess, Filter(Grows, signals), n, top);
    hide RiskLess, ToRiskSummary, AtLeastAsRisky, TopOf, Filter;
    forall i, j | 0 <= i < j < |out| ensures AtLeastAsRisky(out[i], out[j]) {
      RankedIsAtLeastAsRisky(top[i], top[j]);
    }
    forall i | 0 <= i < |out|
      ensures out[i].weeklyGrowthBytesPerDay > 0.0 && exists s :: s in signals && ToRiskSummary(s) == out[i]
    {
      FilteredTopIsBest(RiskLess, Grows, signals, n, top, top[i]);
      GrowthIsShown(top[i]);
    }
    forall s | s in signals && s.weeklyGrowthBytesPerDay > 0.0
      ensures ToRiskSummary(s) in out || (|out| == n && forall r :: r in out ==> AtLeastAsRisky(r, ToRiskSummary(s)))
    {
      FilteredTopIsBest(RiskLess, Grows, signals, n, top, s);
      if s in top {
        var i :| 0 <= i < |top| && top[i] == s;
        assert out[i] == ToRiskSummary(s);
      } else {
        forall r | r in out ensures AtLeastAsRisky(r, ToRiskSummary(s)) {
          var i :| 0 <= i < |out| && out[i] == r;
          RankedIsAtLeastAsRisky(top[i], s);
        }
      }
    }
  }

  lemma GrowthIsShown(s: RiskSignal)
    ensures ToRiskSummary(s).weeklyGrowthBytesPerDay == s.weeklyGrowthBytesPerDay
  {
  }

  // ---------------------------------------------------------------------------
  // The status summary
  // ---------------------------------------------------------------------------

  datatype Brief = Brief(
    namespace: string, name: string, usageRatio: real, growthBytesPerDay: real,
    daysUntilFull: Option<real>, alertFiring: bool)

  datatype StatusSummary = StatusSummary(
    totalPVCs: nat, alertingPVCs: nat, topByUsage: seq<Brief>, topBySoonestToFull: seq<Brief>, topByGrowth: seq<Brief>)

  predicate KeyLess(a: PVCSummary, b: PVCSummary) {
    if a.namespace == b.namespace then StringLess(a.name, b.name) else StringLess(a.namespace, b.namespace)
  }

  predicate UsageLess(a: PVCSummary, b: PVCSummary) {
    if a.usageRatio == b.usageRatio then KeyLess(a, b) else a.usageRatio > b.usageRatio
  }

  /** Only summaries with a prediction are compared with this. */
  predicate SoonestLess(a: PVCSummary, b: PVCSummary) {
    var di, dj := DaysOrMax(a.daysUntilFull), DaysOrMax(b.daysUntilFull);
    if di == dj then KeyLess(a, b) else di < dj
  }

  predicate GrowthLess(a: PVCSummary, b: PVCSummary) {
    if a.growthBytesPerDay == b.growthBytesPerDay then KeyLess(a, b) else a.growthBytesPerDay > b.growthBytesPerDay
  }

  predicate Any(s: PVCSummary) { true }
  predicate Fills(s: PVCSummary) { s.daysUntilFull.Some? }
  predicate IsGrowing(s: PVCSummary) { s.growthBytesPerDay > 0.0 }
  predicate Alerts(s: PVCSummary) { s.alertFiring }

  function ToBrief(s: PVCSummary): Brief {
    Brief(s.namespace, s.name, s.usageRatio, s.growthBytesPerDay, s.daysUntilFull, s.alertFiring)
  }

  function ToBriefs(top: seq<PVCSummary>): (r: seq<Brief>)
    ensures |r| == |top|
  {
    seq(|top|, i requires 0 <= i < |top| => ToBrief(top[i]))
  }

  /** A leaderboard some sort can produce. */
  ghost predicate Leaderboard(
    less: (PVCSummary, PVCSummary) -> bool, keep: PVCSummary -> bool, items: seq<PVCSummary>, n: nat, out: seq<Brief>)
  {
    exists top :: TopOf(less, Filter(keep, items), n, top) && out == ToBriefs(top)
  }

  ghost predicate Summarizes(items: seq<PVCSummary>, n: nat, out: StatusSummary) {
    && out.totalPVCs == |items|
    && out.alertingPVCs == |Filter(Alerts, items)|
    && Leaderboard(UsageLess, Any, items, n, out.topByUsage)
    && Leaderboard(SoonestLess, Fills, items, n, out.topBySoonestToFull)
    && Leaderboard(GrowthLess, IsGrowing, items, n, out.topByGrowth)
  }

  lemma LeaderboardOrders()
    ensures StrictWeak(UsageLess) && StrictWeak(SoonestLess) && StrictWeak(GrowthLess)
  {
    hide DaysOrMax;
    StringOrder();
  }

  method Rank(
    items: seq<PVCSummary>, less: (PVCSummary, PVCSummary) -> bool, keep: PVCSummary -> bool, n: nat)
    returns (out: seq<Brief>)
    requires StrictWeak(less)
    ensures Leaderboard(less, keep, items, n, out)
  {
    hide ToBrief;
    var candidates := [];
    for i := 0 to |items|
      invariant candidates == Filter(keep, items[..i])
    {
      assert items[..i + 1][..i] == items[..i];
      if keep(items[i]) {
        candidates := candidates + [items[i]];
      }
    }
    assert items[..|items|] == items;
    var top := SortAndTake(candidates, less, n);
    out := ToBriefs(top);
  }

  method BuildStatusSummary(items: seq<PVCSummary>, topN: int) returns (out: StatusSummary)
    ensures Summarizes(items, EffectiveTopN(topN), out)
  {
    var n := if topN <= 0 then STATUS_SUMMARY_TOP_N else topN;
    var alerting := 0;
    for i := 0 to |items|
      invariant alerting == |Filter(Alerts, items[..i])|
    {
      assert items[..i + 1][..i] == items[..i];
      if items[i].alertFiring {
        alerting := alerting + 1;
      }
    }
    assert items[..|items|] == items;
    LeaderboardOrders();
    hide UsageLess, SoonestLess, GrowthLess;
    var topByUsage := Rank(items, UsageLess, Any, n);
    var topBySoonest := Rank(items, SoonestLess, Fills, n);
    var topByGrowth := Rank(items, GrowthLess, IsGrowing, n);
    out := StatusSummary(|items|, alerting, topByUsage, topBySoonest, topByGrowth);
  }

  ghost predicate InOrder(order: Brief -> real, out: seq<Brief>) {
    forall i, j :: 0 <= i < j < |out| ==> order(out[i]) <= order(out[j])
  }

  /** The board shows `b`: an item it may show. */
  ghost predicate Shows(keep: PVCSummary -> bool, items: seq<PVCSummary>, b: Brief) {
    exists s :: s in items && keep(s) && ToBrief(s) == b
  }

  /** `b` is on the board, or the board is full of briefs that come no later. */
  ghost predicate BeatenBy(order: Brief -> real, n: nat, out: seq<Brief>, b: Brief) {
    b in out || (|out| == n && forall shown :: shown in out ==> order(shown) <= order(b))
  }

  /** Nothing that the board could show and does not has a smaller value of `order` than anything shown. */
  ghost predicate LeastBy(order: Brief -> real, keep: PVCSummary -> bool, items: seq<PVCSummary>, n: nat, out: seq<Brief>) {
    && |out| <= n
    && InOrder(order, out)
    && (forall b :: b in out ==> Shows(keep, items, b))
    && (forall s :: s in items && keep(s) ==> BeatenBy(order, n, out, ToBrief(s)))
  }

  function LessFree(b: Brief): real { -b.usageRatio }
  function Sooner(b: Brief): real { DaysOrMax(b.daysUntilFull) }
  function Faster(b: Brief): real { -b.growthBytesPerDay }

  /** Ranking by `less` never puts a larger value of `order` first. */
  ghost predicate RanksBy(less: (PVCSummary, PVCSummary) -> bool, order: Brief -> real) {
    forall a, b :: !less(b, a) ==> order(ToBrief(a)) <= order(ToBrief(b))
  }

  lemma RankedInOrder(
    less: (PVCSummary, PVCSummary) -> bool, order: Brief -> real, a: PVCSummary, b: PVCSummary)
    requires RanksBy(less, order) && !less(b, a)
    ensures order(ToBrief(a)) <= order(ToBrief(b))
  {
  }

  lemma BriefOf(top: seq<PVCSummary>, b: Brief) returns (i: nat)
    requires b in ToBriefs(top)
    ensures i < |top| && ToBrief(top[i]) == b
  {
    i :| 0 <= i < |top| && ToBriefs(top)[i] == b;
  }

  lemma BoardInOrder(less: (PVCSummary, PVCSummary) -> bool, order: Brief -> real, top: seq<PVCSummary>)
    requires Sorted(less, top) && RanksBy(less, order)
    ensures InOrder(order, ToBriefs(top))
  {
    hide ToBrief, RanksBy;
    forall i, j | 0 <= i < j < |top| ensures order(ToBriefs(top)[i]) <= order(ToBriefs(top)[j]) {
      var x, y := top[i], top[j];
      RankedInOrder(less, order, x, y);
    }
  }

  lemma BoardShows(
    less: (PVCSummary, PVCSummary) -> bool, keep: PVCSummary -> bool, items: seq<PVCSummary>, n: nat,
    top: seq<PVCSummary>, b: Brief)
    requires TopOf(less, Filter(keep, items), n, top) && b in ToBriefs(top)
    ensures Shows(keep, items, b)
  {
    var i := BriefOf(top, b);
    var s := top[i];
    FilteredTopIsBest(less, keep, items, n, top, s);
  }

  lemma BoardBeats(
    less: (PVCSummary, PVCSummary) -> bool, order: Brief -> real, keep: PVCSummary -> bool, items: seq<PVCSummary>,
    n: nat, top: seq<PVCSummary>, s: PVCSummary)
    requires TopOf(less, Filter(keep, items), n, top) && RanksBy(less, order)
    requires s in items && keep(s)
    ensures BeatenBy(order, n, ToBriefs(top), ToBrief(s))
  {
    hide ToBrief, RanksBy, TopOf, Filter;
    FilteredTopIsBest(less, keep, items, n, top, s);
    if s in top {
      var i :| 0 <= i < |top| && top[i] == s;
      assert ToBriefs(top)[i] == ToBrief(s);
    } else {
      forall b | b in ToBriefs(top) ensures order(b) <= order(ToBrief(s)) {
        var i := BriefOf(top, b);
        RankedInOrder(less, order, top[i], s);
      }
    }
  }

  lemma BoardIsLeastBy(
    less: (PVCSummary, PVCSummary) -> bool, order: Brief -> real, keep: PVCSummary -> bool, items: seq<PVCSummary>,
    n: nat, out: seq<Brief>)
    requires Leaderboard(less, keep, items, n, out) && RanksBy(less, order)
    ensures LeastBy(order, keep, items, n, out)
  {
    var top :| TopOf(less, Filter(keep, items), n, top) && out == ToBriefs(top);
    TopIsBest(less, Filter(keep, items), n, top);
    hide ToBrief, RanksBy, TopOf, Filter, InOrder, Shows, BeatenBy;
    BoardInOrder(less, order, top);
    forall b | b in out ensures Shows(keep, items, b) {
      BoardShows(less, keep, items, n, top, b);
    }
    forall s | s in items && keep(s) ensures BeatenBy(order, n, out, ToBrief(s)) {
      BoardBeats(less, order, keep, items, n, top, s);
    }
  }

  lemma BoardsRankBy()
    ensures RanksBy(UsageLess, LessFree) && RanksBy(SoonestLess, Sooner) && RanksBy(GrowthLess, Faster)
  {
    hide DaysOrMax, KeyLess;
  }

  /** The boards show the fullest, the soonest full and the fastest growing PVCs. */
  lemma BoardsShowTheExtremes(items: seq<PVCSummary>, n: nat, out: StatusSummary)
    requires Summarizes(items, n, out)
    ensures LeastBy(LessFree, Any, items, n, out.topByUsage)
    ensures LeastBy(Sooner, Fills, items, n, out.topBySoonestToFull)
    ensures LeastBy(Faster, IsGrowing, items, n, out.topByGrowth)
  {
    BoardsRankBy();
    hide Leaderboard, LeastBy, RanksBy;
    BoardIsLeastBy(UsageLess, LessFree, Any, items, n, out.topByUsage);
    BoardIsLeastBy(SoonestLess, Sooner, Fills, items, n, out.topBySoonestToFull);
    BoardIsLeastBy(GrowthLess, Faster, IsGrowing, items, n, out.topByGrowth);
  }

  ghost predicate DistinctSummaries(s: seq<PVCSummary>) {
    forall i, j :: 0 <= i < j < |s| ==> (s[i].namespace, s[i].name) != (s[j].namespace, s[j].name)
  }

  lemma DistinctSummariesSeparate(s: seq<PVCSummary>)
    requires DistinctSummaries(s)
    ensures Separated(UsageLess, s) && Separated(SoonestLess, s) && Separated(GrowthLess, s)
  {
    hide DaysOrMax;
    StringOrder();
  }

  lemma LeaderboardDetermined(
    less: (PVCSummary, PVCSummary) -> bool, keep: PVCSummary -> bool, items: seq<PVCSummary>,
    items': seq<PVCSummary>, n: nat, out: seq<Brief>, out': seq<Brief>)
    requires Separated(less, items) && Permutation(items, items')
    requires Leaderboard(less, keep, items, n, out) && Leaderboard(less, keep, items', n, out')
    ensures out == out'
  {
    hide ToBrief;
    var top :| TopOf(less, Filter(keep, items), n, top) && out == ToBriefs(top);
    var top' :| TopOf(less, Filter(keep, items'), n, top') && out' == ToBriefs(top');
    FilteredTopDetermined(less, keep, items, items', n, top, top');
  }

  /** For distinct PVCs, the whole status summary depends on the set of summaries only. */
  lemma StatusSummaryDetermined(
    items: seq<PVCSummary>, items': seq<PVCSummary>, n: nat, out: StatusSummary, out': StatusSummary)
    requires DistinctSummaries(items) && Permutation(items, items')
    requires Summarizes(items, n, out) && Summarizes(items', n, out')
    ensures out == out'
  {
    PermutationLength(items, items');
    FilterPermutes(Alerts, items, items');
    PermutationLength(Filter(Alerts, items), Filter(Alerts, items'));
    DistinctSummariesSeparate(items);
    hide UsageLess, SoonestLess, GrowthLess, Leaderboard;
    LeaderboardDetermined(UsageLess, Any, items, items', n, out.topByUsage, out'.topByUsage);
    LeaderboardDetermined(SoonestLess, Fills, items, items', n, out.topBySoonestToFull, out'.topBySoonestToFull);
    LeaderboardDetermined(GrowthLess, IsGrowing, items, items', n, out.topByGrowth, out'.topByGrowth);
  }
}
