/** What budget forecasts count, as sums over the PVCs of the plan's status. */
module BudgetTotals {

  import opened BudgetConservation
  import opened Budgets
  import opened Growth
  import opened Keys
  import opened Options
  import opened Ordering
  import opened PlanTypes
  import opened Ranking
  import opened RiskSignals
  import opened Text

  // ---------------------------------------------------------------------------
  // Every forecast
  // ---------------------------------------------------------------------------

  lemma BreachDateFits(now: int, used: int, budget: int, growth: real)
    ensures DateFits(now, BreachProjection(now, used, budget, growth).0, BreachProjection(now, used, budget, growth).1)
  {
    var (days, _) := BreachProjection(now, used, budget, growth);
    if days.Some? {
      DurationFits(now, days.value);
    }
    hide ToDuration, DaysInNanos;
  }

  /** What a forecast counts, and when it says that its budget is reached. */
  ghost predicate Tells(
    f: Forecast, now: int, counted: PVCSummary -> bool, items: seq<PVCSummary>, risks: map<Key, RiskSignal>)
  {
    && f.usedBytes == Total(Bytes(counted, items))
    && f.growthBytesPerDay == Sum(Growths(counted, items, risks))
    && ReachesBudget(f)
    && DateFits(now, f.daysUntilBreach, f.projectedBreachAt)
  }

  lemma MadeForecastTells(
    now: int, scope: Scope, ns: string, kind: string, name: string, budget: int, keep: PVCSummary -> bool,
    counted: PVCSummary -> bool, items: seq<PVCSummary>, risks: map<Key, RiskSignal>)
    requires budget > 0 && forall s :: keep(s) <==> counted(s)
    ensures Tells(MakeForecast(now, scope, ns, kind, name, budget, UsedWhere(keep, items), GrowthWhere(keep, items, risks)),
                  now, counted, items, risks)
  {
    var used, growth := UsedWhere(keep, items), GrowthWhere(keep, items, risks);
    UsedIsTotal(keep, counted, items);
    GrowthIsSum(keep, counted, items, risks);
    MadeForecastReachesBudget(now, scope, ns, kind, name, budget, used, growth);
    BreachDateFits(now, used, budget, growth);
    hide UsedWhere, GrowthWhere, BreachProjection, ReachesBudget, DateFits, Total, Bytes, Growths, Ratio;
  }

  /** A budget that is not skipped. */
  predicate Usable(budget: Option<int>) { budget.Some? && budget.value > 0 }

  predicate NamesNamespace(b: NamespaceBudget) { TrimSpace(b.namespace) != "" && Usable(b.budget) }

  predicate NamesWorkload(b: WorkloadBudget) {
    TrimSpace(b.namespace) != "" && TrimSpace(b.kind) != "" && TrimSpace(b.name) != "" && Usable(b.budget)
  }

  ghost predicate ForecastsNamespace(
    b: NamespaceBudget, f: Forecast, now: int, items: seq<PVCSummary>, risks: map<Key, RiskSignal>)
  {
    && f.scope == Namespace && f.namespace == TrimSpace(b.namespace) && f.kind == "" && f.name == ""
    && b.budget == Some(f.budgetBytes) && Tells(f, now, IsIn(f.namespace), items, risks)
  }

  ghost predicate ForecastsWorkload(
    b: WorkloadBudget, f: Forecast, now: int, items: seq<PVCSummary>, risks: map<Key, RiskSignal>,
    workloads: map<Key, WorkloadRef>)
  {
    && f.scope == Workload && f.namespace == TrimSpace(b.namespace) && f.kind == TrimSpace(b.kind)
    && f.name == TrimSpace(b.name) && b.budget == Some(f.budgetBytes)
    && Tells(f, now, IsOwnedBy(workloads, f.namespace, f.kind, f.name), items, risks)
  }

  lemma NamespaceForecastIs(b: NamespaceBudget, now: int, items: seq<PVCSummary>, risks: map<Key, RiskSignal>)
    ensures
      var f := NamespaceForecasts(now, items, risks)(b);
      && (f.Some? <==> NamesNamespace(b))
      && (f.Some? ==> ForecastsNamespace(b, f.value, now, items, risks))
  {
    hide UsedWhere, GrowthWhere, TrimSpace, Tells;
    if NamesNamespace(b) {
      var ns := TrimSpace(b.namespace);
      MadeForecastTells(now, Namespace, ns, "", "", b.budget.value, Labelled(ByNamespace(), ns), IsIn(ns), items, risks);
    }
    hide BreachProjection;
  }

  lemma WorkloadForecastIs(
    b: WorkloadBudget, now: int, items: seq<PVCSummary>, risks: map<Key, RiskSignal>, workloads: map<Key, WorkloadRef>)
    ensures
      var f := WorkloadForecasts(now, items, risks, workloads)(b);
      && (f.Some? <==> NamesWorkload(b))
      && (f.Some? ==> ForecastsWorkload(b, f.value, now, items, risks, workloads))
  {
    hide UsedWhere, GrowthWhere, TrimSpace, Tells, FoldAll, ByOwner, IsOwnedBy, Labelled;
    if NamesWorkload(b) {
      var ns, kind, name := TrimSpace(b.namespace), TrimSpace(b.kind), TrimSpace(b.name);
      var keep, counted := Labelled(ByOwner(workloads), Some(OwnerOfBudget(b))), IsOwnedBy(workloads, ns, kind, name);
      forall s ensures keep(s) <==> counted(s) {
        OwnerCounts(workloads, ns, kind, name, s);
      }
      MadeForecastTells(now, Workload, ns, kind, name, b.budget.value, keep, counted, items, risks);
    }
    hide BreachProjection;
  }

  /** One forecast for each budget that is not skipped, each of its own budget. */
  ghost predicate OneEach<B(!new)>(usable: B -> bool, forecasts: (B, Forecast) -> bool, budgets: seq<B>, out: seq<Forecast>) {
    && |out| == Total(seq(|budgets|, i requires 0 <= i < |budgets| => if usable(budgets[i]) then 1 else 0))
    && (forall b :: b in budgets && usable(b) ==> exists f :: f in out && forecasts(b, f))
    && (forall f :: f in out ==> exists b :: b in budgets && usable(b) && forecasts(b, f))
  }

  lemma {:induction false} CollectCounts<B(!new)>(forecast: B -> Option<Forecast>, usable: B -> bool, budgets: seq<B>)
    requires forall b :: forecast(b).Some? <==> usable(b)
    ensures |Collect(forecast, budgets)|
            == Total(seq(|budgets|, i requires 0 <= i < |budgets| => if usable(budgets[i]) then 1 else 0))
    ensures forall b :: b in budgets && usable(b) ==> forecast(b).value in Collect(forecast, budgets)
  {
    if budgets != [] {
      var front := budgets[..|budgets| - 1];
      CollectCounts(forecast, usable, front);
      var ones := seq(|budgets|, i requires 0 <= i < |budgets| => if usable(budgets[i]) then 1 else 0);
      assert ones[..|budgets| - 1]
        == seq(|front|, i requires 0 <= i < |front| => if usable(front[i]) then 1 else 0);
      assert budgets == front + [budgets[|budgets| - 1]];
    }
  }

  lemma RankedOneEach<B(!new)>(
    forecast: B -> Option<Forecast>, usable: B -> bool, forecasts: (B, Forecast) -> bool, budgets: seq<B>,
    out: seq<Forecast>)
    requires RankedForecasts(forecast, budgets, out)
    requires forall b :: forecast(b).Some? <==> usable(b)
    requires forall b :: forecast(b).Some? ==> forecasts(b, forecast(b).value)
    ensures OneEach(usable, forecasts, budgets, out)
  {
    CollectCounts(forecast, usable, budgets);
    PermutationLength(out, Collect(forecast, budgets));
    forall b | b in budgets && usable(b) ensures exists f :: f in out && forecasts(b, f) {
      var f := forecast(b).value;
      assert f in multiset(Collect(forecast, budgets));
      assert f in multiset(out);
    }
    forall f | f in out ensures exists b :: b in budgets && usable(b) && forecasts(b, f) {
      var i := RankedFrom(forecast, budgets, out, f);
    }
  }

  /**
   In one reconcile: one forecast for each namespace budget and each workload budget that is not
   skipped; it counts the bytes and the weekly growth of exactly the PVCs of its namespace or
   workload, and says when they reach the budget.
   */
  lemma ForecastsTellTheSums(
    now: int, namespaceBudgets: seq<NamespaceBudget>, workloadBudgets: seq<WorkloadBudget>, items: seq<PVCSummary>,
    risks: map<Key, RiskSignal>, workloads: map<Key, WorkloadRef>, namespaceOut: seq<Forecast>,
    workloadOut: seq<Forecast>)
    requires RankedForecasts(NamespaceForecasts(now, items, risks), namespaceBudgets, namespaceOut)
    requires RankedForecasts(WorkloadForecasts(now, items, risks, workloads), workloadBudgets, workloadOut)
    ensures OneEach(NamesNamespace, (b, f) => ForecastsNamespace(b, f, now, items, risks), namespaceBudgets, namespaceOut)
    ensures OneEach(NamesWorkload, (b, f) => ForecastsWorkload(b, f, now, items, risks, workloads), workloadBudgets,
                    workloadOut)
  {
    hide RankedForecasts, NamespaceForecasts, WorkloadForecasts, ForecastsNamespace, ForecastsWorkload, OneEach;
    hide NamesNamespace, NamesWorkload;
    forall b ensures
        var f := NamespaceForecasts(now, items, risks)(b);
        (f.Some? <==> NamesNamespace(b)) && (f.Some? ==> ForecastsNamespace(b, f.value, now, items, risks)) {
      NamespaceForecastIs(b, now, items, risks);
    }
    forall b ensures
        var f := WorkloadForecasts(now, items, risks, workloads)(b);
        (f.Some? <==> NamesWorkload(b)) && (f.Some? ==> ForecastsWorkload(b, f.value, now, items, risks, workloads)) {
      WorkloadForecastIs(b, now, items, risks, workloads);
    }
    RankedOneEach(NamespaceForecasts(now, items, risks), NamesNamespace,
                  (b, f) => ForecastsNamespace(b, f, now, items, risks), namespaceBudgets, namespaceOut);
    RankedOneEach(WorkloadForecasts(now, items, risks, workloads), NamesWorkload,
                  (b, f) => ForecastsWorkload(b, f, now, items, risks, workloads), workloadBudgets, workloadOut);
  }

  /** Forecasts are listed by the days until the breach, and then by namespace, kind and name in dictionary order. */
  lemma ForecastsAreListed<B>(forecast: B -> Option<Forecast>, budgets: seq<B>, out: seq<Forecast>, i: nat, j: nat)
    requires RankedForecasts(forecast, budgets, out) && i < j < |out|
    ensures
      var a, b := out[i], out[j];
      || DaysOrMax(a.daysUntilBreach) < DaysOrMax(b.daysUntilBreach)
      || (DaysOrMax(a.daysUntilBreach) == DaysOrMax(b.daysUntilBreach)
          && !WordsLess([b.namespace, b.kind, b.name], [a.namespace, a.kind, a.name]))
  {
    hide Collect;
    var a, b := out[i], out[j];
    assert !ForecastLess(b, a);
    WordsOfThree([b.namespace, b.kind, b.name], [a.namespace, a.kind, a.name]);
    StringOrder();
    hide WordsLess, StringLess, DaysOrMax;
  }

  // ---------------------------------------------------------------------------
  // Adding up to everything
  // ---------------------------------------------------------------------------

  function Everything(s: PVCSummary): bool { true }

  ghost predicate Covered<L>(
    labelOf: PVCSummary -> L, forecastLabel: Forecast -> L, items: seq<PVCSummary>, out: seq<Forecast>)
  {
    forall s :: s in items ==> exists f :: f in out && forecastLabel(f) == labelOf(s)
  }

  lemma {:induction false} LabelsHave<L>(labelOf: Forecast -> L, forecasts: seq<Forecast>, f: Forecast)
    requires f in forecasts
    ensures labelOf(f) in LabelsOf(labelOf, forecasts)
  {
    if f != forecasts[|forecasts| - 1] {
      LabelsHave(labelOf, forecasts[..|forecasts| - 1], f);
    }
  }

  lemma {:induction false} UsedByMembers(keep: PVCSummary -> bool, items: seq<PVCSummary>)
    requires forall s :: s in items ==> keep(s)
    ensures UsedWhere(keep, items) == Total(Bytes(Everything, items))
  {
    if items != [] {
      var front := items[..|items| - 1];
      UsedByMembers(keep, front);
      assert items == front + [items[|items| - 1]];
      var last := items[|items| - 1];
      assert keep(last) && Bytes(Everything, items)[|items| - 1] == last.usedBytes;
      assert Bytes(Everything, items)[..|items| - 1] == Bytes(Everything, front);
    }
  }

  lemma CoveredAddsUp<L(!new)>(
    labelOf: PVCSummary -> L, forecastLabel: Forecast -> L, items: seq<PVCSummary>, out: seq<Forecast>)
    requires Accounts(labelOf, forecastLabel, out, items) && DistinctBy(forecastLabel, out)
    requires Covered(labelOf, forecastLabel, items, out)
    ensures TotalUsed(out) == Total(Bytes(Everything, items))
  {
    var keep := LabelledIn(labelOf, LabelsOf(forecastLabel, out));
    ForecastsAddUp(labelOf, forecastLabel, out, items);
    forall s | s in items ensures keep(s) {
      var f :| f in out && forecastLabel(f) == labelOf(s);
      LabelsHave(forecastLabel, out, f);
    }
    UsedByMembers(keep, items);
  }

  /** When every PVC's namespace has one budget, the forecasts add up to all the bytes in use. */
  lemma NamespacesAddUpToAll(
    now: int, budgets: seq<NamespaceBudget>, items: seq<PVCSummary>, risks: map<Key, RiskSignal>, out: seq<Forecast>)
    requires RankedForecasts(NamespaceForecasts(now, items, risks), budgets, out)
    requires DistinctBy(BudgetNamespace, budgets)
    requires forall s :: s in items ==> exists f :: f in out && f.namespace == s.namespace
    ensures TotalUsed(out) == Total(Bytes(Everything, items))
  {
    var forecast := NamespaceForecasts(now, items, risks);
    NamespaceForecastsAccount(now, budgets, items, risks, out);
    CollectedDistinct(forecast, BudgetNamespace, NamespaceOf, budgets);
    DistinctPermutes(NamespaceOf, Collect(forecast, budgets), out);
    hide UsedWhere, GrowthWhere, Accounts;
    assert Covered(ByNamespace(), NamespaceOf, items, out);
    CoveredAddsUp(ByNamespace(), NamespaceOf, items, out);
  }

  /** The same for workloads, when every PVC has an owner with one budget. */
  lemma WorkloadsAddUpToAll(
    now: int, budgets: seq<WorkloadBudget>, items: seq<PVCSummary>, risks: map<Key, RiskSignal>,
    workloads: map<Key, WorkloadRef>, out: seq<Forecast>)
    requires RankedForecasts(WorkloadForecasts(now, items, risks, workloads), budgets, out)
    requires DistinctBy(BudgetOwner, budgets)
    requires forall s :: s in items ==> exists f :: f in out && IsOwnedBy(workloads, f.namespace, f.kind, f.name)(s)
    ensures TotalUsed(out) == Total(Bytes(Everything, items))
  {
    var forecast := WorkloadForecasts(now, items, risks, workloads);
    WorkloadForecastsAccount(now, budgets, items, risks, workloads, out);
    hide UsedWhere, GrowthWhere, Accounts, FoldAll, TrimSpace, MakeForecast;
    CollectedDistinct(forecast, BudgetOwner, OwnerOfForecast, budgets);
    DistinctPermutes(OwnerOfForecast, Collect(forecast, budgets), out);
    hide IsOwnedBy, RankedForecasts, DistinctBy, ByOwner;
    forall s | s in items ensures exists f :: f in out && OwnerOfForecast(f) == ByOwner(workloads)(s) {
      var f :| f in out && IsOwnedBy(workloads, f.namespace, f.kind, f.name)(s);
      OwnerCounts(workloads, f.namespace, f.kind, f.name, s);
    }
    CoveredAddsUp(ByOwner(workloads), OwnerOfForecast, items, out);
  }
}
