/** Storage budget forecasts: what namespaces and workloads use of their budgets, and when they run out. */
module Budgets {

  import opened Growth
  import opened Keys
  import opened Options
  import opened Ordering
  import opened PlanTypes
  import opened Ranking
  import opened RiskSignals
  import opened Text

  /** `budget` is what the quantity parses to; None when it does not parse. */
  datatype NamespaceBudget = NamespaceBudget(namespace: string, budget: Option<int>)

  datatype WorkloadBudget = WorkloadBudget(namespace: string, kind: string, name: string, budget: Option<int>)

  datatype Scope = Namespace | Workload

  datatype Forecast = Forecast(
    scope: Scope, namespace: string, kind: string, name: string, budgetBytes: int, usedBytes: int,
    usageRatio: real, growthBytesPerDay: real, daysUntilBreach: Option<real>, projectedBreachAt: Option<int>)

  // ---------------------------------------------------------------------------
  // Breach projection
  // ---------------------------------------------------------------------------

  function BreachProjection(now: int, used: int, budget: int, growth: real): (Option<real>, Option<int>) {
    if budget <= 0 then (None, None)
    else if used >= budget then (Some(0.0), Some(now))
    else if growth <= 0.0 then (None, None)
    else
      var ratio := (budget - used) as real / growth;
      var days := if ratio < 0.0 then 0.0 else ratio;
      (Some(days), Some(now + ToDuration(DaysInNanos(days))))
  }

  lemma QuotientTimesDivisor(x: real, y: real)
    requires x > 0.0 && y > 0.0
    ensures x / y > 0.0 && y * (x / y) == x
  {
    var q := x / y;
    assert q * y == x;
    assert q <= 0.0 ==> q * y <= 0.0;
  }

  /** Zero days for a spent budget, none for one that is not being used up, otherwise the day it is reached. */
  lemma BreachMeaning(now: int, used: int, budget: int, growth: real)
    requires budget > 0
    ensures
      var (days, at) := BreachProjection(now, used, budget, growth);
      && (days.None? <==> used < budget && growth <= 0.0)
      && (days == Some(0.0) <==> used >= budget)
      && (days.Some? && days.value != 0.0 ==> days.value > 0.0 && used as real + growth * days.value == budget as real)
      && (at.Some? <==> days.Some?)
  {
    if used < budget && growth > 0.0 {
      QuotientTimesDivisor((budget - used) as real, growth);
    }
  }

  /** Up to the predicted day the budget is not reached. */
  lemma BreachIsFirst(now: int, used: int, budget: int, growth: real, t: real)
    requires budget > 0 && BreachProjection(now, used, budget, growth).0.Some?
    requires 0.0 <= t < BreachProjection(now, used, budget, growth).0.value
    ensures used as real + growth * t < budget as real
  {
    var days := BreachProjection(now, used, budget, growth).0.value;
    QuotientTimesDivisor((budget - used) as real, growth);
    Scaled(growth, t, days);
  }

  lemma Scaled(growth: real, t: real, days: real)
    requires growth > 0.0 && t < days
    ensures growth * t < growth * days
  {
  }

  /** The predicted instant is not before now exactly when the wait fits a 64-bit count of nanoseconds. */
  lemma BreachNotBeforeNow(now: int, used: int, budget: int, growth: real)
    ensures
      var (days, at) := BreachProjection(now, used, budget, growth);
      && (at.Some? <==> days.Some?)
      && (at.Some? ==> (at.value >= now <==> DaysInNanos(days.value).Floor < INT64_LIMIT))
  {
  }

  // ---------------------------------------------------------------------------
  // Usage by label
  // ---------------------------------------------------------------------------

  /** strings.EqualFold for the kinds in use: ASCII case, and the two other runes that fold to ASCII letters. */
  function Fold(c: char): char {
    if 'A' <= c <= 'Z' then (c as int + 32) as char
    else if c == '\U{212A}' then 'k'
    else if c == '\U{17F}' then 's'
    else c
  }

  function FoldAll(s: string): string { seq(|s|, i requires 0 <= i < |s| => Fold(s[i])) }

  predicate EqualFold(s: string, t: string) { FoldAll(s) == FoldAll(t) }

  datatype Owner = Owner(namespace: string, foldedKind: string, name: string)

  function ByNamespace(): PVCSummary -> string { (s: PVCSummary) => s.namespace }

  function ByOwner(workloads: map<Key, WorkloadRef>): PVCSummary -> Option<Owner> {
    (s: PVCSummary) =>
      var key := KeyOf(s.namespace, s.name);
      if key in workloads then Some(Owner(s.namespace, FoldAll(workloads[key].kind), workloads[key].name)) else None
  }

  function Labelled<L(==)>(labelOf: PVCSummary -> L, l: L): PVCSummary -> bool {
    (s: PVCSummary) => labelOf(s) == l
  }

  function LabelledIn<L(==)>(labelOf: PVCSummary -> L, ls: seq<L>): PVCSummary -> bool {
    (s: PVCSummary) => labelOf(s) in ls
  }

  function UsedWhere(keep: PVCSummary -> bool, items: seq<PVCSummary>): int {
    if items == [] then 0
    else
      var last := items[|items| - 1];
      UsedWhere(keep, items[..|items| - 1]) + if keep(last) then last.usedBytes else 0
  }

  function WeeklyGrowth(s: PVCSummary, risks: map<Key, RiskSignal>): real {
    var key := KeyOf(s.namespace, s.name);
    if key in risks then risks[key].weeklyGrowthBytesPerDay else 0.0
  }

  function GrowthWhere(keep: PVCSummary -> bool, items: seq<PVCSummary>, risks: map<Key, RiskSignal>): real {
    if items == [] then 0.0
    else
      var last := items[|items| - 1];
      GrowthWhere(keep, items[..|items| - 1], risks) + if keep(last) then WeeklyGrowth(last, risks) else 0.0
  }

  // ---------------------------------------------------------------------------
  // Usage as a sum over the items
  // ---------------------------------------------------------------------------

  function Total(s: seq<int>): int {
    if s == [] then 0 else Total(s[..|s| - 1]) + s[|s| - 1]
  }

  /** The bytes that each item adds, where `counted` says which items count. */
  function Bytes(counted: PVCSummary -> bool, items: seq<PVCSummary>): (r: seq<int>)
    ensures |r| == |items|
  {
    seq(|items|, i requires 0 <= i < |items| => if counted(items[i]) then items[i].usedBytes else 0)
  }

  /** The weekly growth of each item's risk signal; an item without one adds nothing. */
  function Growths(counted: PVCSummary -> bool, items: seq<PVCSummary>, risks: map<Key, RiskSignal>): (r: seq<real>)
    ensures |r| == |items|
  {
    seq(|items|, i requires 0 <= i < |items| =>
      if counted(items[i]) && KeyOf(items[i].namespace, items[i].name) in risks
      then risks[KeyOf(items[i].namespace, items[i].name)].weeklyGrowthBytesPerDay else 0.0)
  }

  lemma {:induction false} UsedIsTotal(keep: PVCSummary -> bool, counted: PVCSummary -> bool, items: seq<PVCSummary>)
    requires forall s :: keep(s) <==> counted(s)
    ensures UsedWhere(keep, items) == Total(Bytes(counted, items))
  {
    if items != [] {
      UsedIsTotal(keep, counted, items[..|items| - 1]);
      assert Bytes(counted, items)[..|items| - 1] == Bytes(counted, items[..|items| - 1]);
    }
  }

  lemma {:induction false} GrowthIsSum(
    keep: PVCSummary -> bool, counted: PVCSummary -> bool, items: seq<PVCSummary>, risks: map<Key, RiskSignal>)
    requires forall s :: keep(s) <==> counted(s)
    ensures GrowthWhere(keep, items, risks) == Sum(Growths(counted, items, risks))
  {
    if items != [] {
      GrowthIsSum(keep, counted, items[..|items| - 1], risks);
      assert Growths(counted, items, risks)[..|items| - 1] == Growths(counted, items[..|items| - 1], risks);
    }
  }

  // ---------------------------------------------------------------------------
  // Which items a forecast counts
  // ---------------------------------------------------------------------------

  function IsIn(ns: string): PVCSummary -> bool {
    (s: PVCSummary) => s.namespace == ns
  }

  /** Letters that differ in case only; the Kelvin sign and the long s count as k and s. */
  predicate SameLetter(c: char, d: char) {
    || c == d
    || ('A' <= c <= 'Z' && d as int == c as int + 32)
    || ('A' <= d <= 'Z' && c as int == d as int + 32)
    || {c, d} <= {'k', 'K', '\U{212A}'}
    || {c, d} <= {'s', 'S', '\U{17F}'}
  }

  /** Kinds are compared without regard to case. */
  predicate SameWord(s: string, t: string) {
    |s| == |t| && forall i :: 0 <= i < |s| ==> SameLetter(s[i], t[i])
  }

  lemma FoldMeans(c: char, d: char)
    ensures Fold(c) == Fold(d) <==> SameLetter(c, d)
  {
  }

  lemma EqualFoldMeans(s: string, t: string)
    ensures EqualFold(s, t) <==> SameWord(s, t)
  {
    hide Fold, SameLetter;
    forall c, d ensures Fold(c) == Fold(d) <==> SameLetter(c, d) {
      FoldMeans(c, d);
    }
    var x, y := FoldAll(s), FoldAll(t);
    if x == y {
      assert |x| == |y|;
      forall i | 0 <= i < |s| ensures SameLetter(s[i], t[i]) {
        assert x[i] == Fold(s[i]) && y[i] == Fold(t[i]);
      }
    }
    if SameWord(s, t) {
      assert forall i :: 0 <= i < |s| ==> x[i] == y[i];
      assert x == y;
    }
  }

  function IsOwnedBy(workloads: map<Key, WorkloadRef>, ns: string, kind: string, name: string): PVCSummary -> bool {
    (s: PVCSummary) =>
      var key := KeyOf(s.namespace, s.name);
      s.namespace == ns && key in workloads && SameWord(workloads[key].kind, kind) && workloads[key].name == name
  }

  lemma OwnerCounts(workloads: map<Key, WorkloadRef>, ns: string, kind: string, name: string, s: PVCSummary)
    ensures Labelled(ByOwner(workloads), Some(Owner(ns, FoldAll(kind), name)))(s)
            <==> IsOwnedBy(workloads, ns, kind, name)(s)
  {
    var key := KeyOf(s.namespace, s.name);
    if key in workloads {
      EqualFoldMeans(workloads[key].kind, kind);
    }
    hide FoldAll, SameWord, KeyOf;
  }

  // ---------------------------------------------------------------------------
  // Forecasts
  // ---------------------------------------------------------------------------

  function Ratio(used: int, budget: int): real {
    if budget > 0 then used as real / budget as real else 0.0
  }

  function MakeForecast(
    now: int, scope: Scope, namespace: string, kind: string, name: string, budget: int, used: int, growth: real): Forecast
  {
    var (days, at) := BreachProjection(now, used, budget, growth);
    Forecast(scope, namespace, kind, name, budget, used, Ratio(used, budget), growth, days, at)
  }

  /** None for a budget that is skipped. */
  function NamespaceForecasts(now: int, items: seq<PVCSummary>, risks: map<Key, RiskSignal>)
    : NamespaceBudget -> Option<Forecast>
  {
    (b: NamespaceBudget) =>
      var ns := TrimSpace(b.namespace);
      if ns == "" || b.budget.None? || b.budget.value <= 0 then None
      else
        var keep := Labelled(ByNamespace(), ns);
        Some(MakeForecast(
               now, Namespace, ns, "", "", b.budget.value, UsedWhere(keep, items), GrowthWhere(keep, items, risks)))
  }

  function OwnerOfBudget(b: WorkloadBudget): Owner {
    Owner(TrimSpace(b.namespace), FoldAll(TrimSpace(b.kind)), TrimSpace(b.name))
  }

  function WorkloadForecasts(
    now: int, items: seq<PVCSummary>, risks: map<Key, RiskSignal>, workloads: map<Key, WorkloadRef>)
    : WorkloadBudget -> Option<Forecast>
  {
    (b: WorkloadBudget) =>
      var (ns, kind, name) := (TrimSpace(b.namespace), TrimSpace(b.kind), TrimSpace(b.name));
      if ns == "" || kind == "" || name == "" || b.budget.None? || b.budget.value <= 0 then None
      else
        var keep := Labelled(ByOwner(workloads), Some(OwnerOfBudget(b)));
        Some(MakeForecast(
               now, Workload, ns, kind, name, b.budget.value, UsedWhere(keep, items), GrowthWhere(keep, items, risks)))
  }

  function Collect<B>(forecast: B -> Option<Forecast>, budgets: seq<B>): seq<Forecast> {
    if budgets == [] then []
    else
      var last := forecast(budgets[|budgets| - 1]);
      Collect(forecast, budgets[..|budgets| - 1]) + if last.Some? then [last.value] else []
  }

  predicate ForecastLess(a: Forecast, b: Forecast) {
    var (ad, bd) := (DaysOrMax(a.daysUntilBreach), DaysOrMax(b.daysUntilBreach));
    if ad != bd then ad < bd
    else if a.namespace != b.namespace then StringLess(a.namespace, b.namespace)
    else if a.kind != b.kind then StringLess(a.kind, b.kind)
    else StringLess(a.name, b.name)
  }

  lemma ForecastLessIsStrictWeak()
    ensures StrictWeak(ForecastLess)
  {
    hide DaysOrMax;
    StringOrder();
  }

  ghost predicate RankedForecasts<B>(forecast: B -> Option<Forecast>, budgets: seq<B>, out: seq<Forecast>) {
    Permutation(out, Collect(forecast, budgets)) && Sorted(ForecastLess, out)
  }

  method NamespaceUsage(ns: string, items: seq<PVCSummary>, risks: map<Key, RiskSignal>) returns (used: int, growth: real)
    ensures used == UsedWhere(Labelled(ByNamespace(), ns), items)
    ensures growth == GrowthWhere(Labelled(ByNamespace(), ns), items, risks)
    ensures used == Total(Bytes(IsIn(ns), items)) && growth == Sum(Growths(IsIn(ns), items, risks))
  {
    UsedIsTotal(Labelled(ByNamespace(), ns), IsIn(ns), items);
    GrowthIsSum(Labelled(ByNamespace(), ns), IsIn(ns), items, risks);
    hide Total, Sum;
    used, growth := 0, 0.0;
    for i := 0 to |items|
      invariant used == UsedWhere(Labelled(ByNamespace(), ns), items[..i])
      invariant growth == GrowthWhere(Labelled(ByNamespace(), ns), items[..i], risks)
    {
      assert items[..i + 1][..i] == items[..i];
      var s := items[i];
      if s.namespace != ns {
        continue;
      }
      used := used + s.usedBytes;
      growth := growth + WeeklyGrowth(s, risks);
    }
    assert items[..|items|] == items;
  }

  lemma OwnedSums(
    keep: PVCSummary -> bool, ns: string, kind: string, name: string, items: seq<PVCSummary>,
    risks: map<Key, RiskSignal>, workloads: map<Key, WorkloadRef>)
    requires keep == Labelled(ByOwner(workloads), Some(Owner(ns, FoldAll(kind), name)))
    ensures
      var owned := IsOwnedBy(workloads, ns, kind, name);
      UsedWhere(keep, items) == Total(Bytes(owned, items))
      && GrowthWhere(keep, items, risks) == Sum(Growths(owned, items, risks))
  {
    hide Labelled, ByOwner, FoldAll, IsOwnedBy;
    var owned := IsOwnedBy(workloads, ns, kind, name);
    forall s ensures keep(s) <==> owned(s) {
      OwnerCounts(workloads, ns, kind, name, s);
    }
    UsedIsTotal(keep, owned, items);
    GrowthIsSum(keep, owned, items, risks);
  }

  method WorkloadUsage(
    ns: string, kind: string, name: string, items: seq<PVCSummary>, risks: map<Key, RiskSignal>,
    workloads: map<Key, WorkloadRef>)
    returns (used: int, growth: real)
    ensures
      var keep := Labelled(ByOwner(workloads), Some(Owner(ns, FoldAll(kind), name)));
      used == UsedWhere(keep, items) && growth == GrowthWhere(keep, items, risks)
    ensures
      var owned := IsOwnedBy(workloads, ns, kind, name);
      used == Total(Bytes(owned, items)) && growth == Sum(Growths(owned, items, risks))
  {
    hide FoldAll, WeeklyGrowth, Total, Sum;
    ghost var keep := Labelled(ByOwner(workloads), Some(Owner(ns, FoldAll(kind), name)));
    OwnedSums(keep, ns, kind, name, items, risks, workloads);
    used, growth := 0, 0.0;
    for i := 0 to |items|
      invariant used == UsedWhere(keep, items[..i])
      invariant growth == GrowthWhere(keep, items[..i], risks)
    {
      assert items[..i + 1][..i] == items[..i];
      var s := items[i];
      var key := KeyOf(s.namespace, s.name);
      if key !in workloads {
        continue;
      }
      if s.namespace != ns {
        continue;
      }
      if !EqualFold(workloads[key].kind, kind) || workloads[key].name != name {
        continue;
      }
      used := used + s.usedBytes;
      growth := growth + WeeklyGrowth(s, risks);
    }
    assert items[..|items|] == items;
  }

  method BuildBudgetForecasts(
    now: int, namespaceBudgets: seq<NamespaceBudget>, workloadBudgets: seq<WorkloadBudget>,
    items: seq<PVCSummary>, risks: map<Key, RiskSignal>, workloads: map<Key, WorkloadRef>)
    returns (namespaceOut: seq<Forecast>, workloadOut: seq<Forecast>)
    ensures RankedForecasts(NamespaceForecasts(now, items, risks), namespaceBudgets, namespaceOut)
    ensures RankedForecasts(WorkloadForecasts(now, items, risks, workloads), workloadBudgets, workloadOut)
  {
    hide UsedWhere, GrowthWhere, MakeForecast, TrimSpace, FoldAll, ForecastLess, ByOwner, ByNamespace, Labelled;
    namespaceOut, workloadOut := [], [];
    for i := 0 to |namespaceBudgets|
      invariant namespaceOut == Collect(NamespaceForecasts(now, items, risks), namespaceBudgets[..i])
    {
      assert namespaceBudgets[..i + 1][..i] == namespaceBudgets[..i];
      var b := namespaceBudgets[i];
      var ns := TrimSpace(b.namespace);
      if ns == "" {
        continue;
      }
      if b.budget.None? || b.budget.value <= 0 {
        continue;
      }
      var used, growth := NamespaceUsage(ns, items, risks);
      namespaceOut := namespaceOut + [MakeForecast(now, Namespace, ns, "", "", b.budget.value, used, growth)];
    }
    for i := 0 to |workloadBudgets|
      invariant workloadOut == Collect(WorkloadForecasts(now, items, risks, workloads), workloadBudgets[..i])
    {
      assert workloadBudgets[..i + 1][..i] == workloadBudgets[..i];
      var b := workloadBudgets[i];
      var ns, kind, name := TrimSpace(b.namespace), TrimSpace(b.kind), TrimSpace(b.name);
      if ns == "" || kind == "" || name == "" {
        continue;
      }
      if b.budget.None? || b.budget.value <= 0 {
        continue;
      }
      var used, growth := WorkloadUsage(ns, kind, name, items, risks, workloads);
      workloadOut := workloadOut + [MakeForecast(now, Workload, ns, kind, name, b.budget.value, used, growth)];
    }
    assert namespaceBudgets[..|namespaceBudgets|] == namespaceBudgets;
    assert workloadBudgets[..|workloadBudgets|] == workloadBudgets;
    ForecastLessIsStrictWeak();
    namespaceOut := SortSlice(namespaceOut, ForecastLess);
    workloadOut := SortSlice(workloadOut, ForecastLess);
  }
}
