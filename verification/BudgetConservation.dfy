/** No byte is counted twice by budget forecasts, and the forecasts do not depend on the order of the budgets. */
module BudgetConservation {

  import opened Budgets
  import opened Keys
  import opened Options
  import opened Ordering
  import opened PlanTypes
  import opened Ranking
  import opened Text

  ghost predicate DistinctBy<T, L>(labelOf: T -> L, s: seq<T>) {
    forall i, j :: 0 <= i < j < |s| ==> labelOf(s[i]) != labelOf(s[j])
  }

  ghost predicate NonNegative(items: seq<PVCSummary>) {
    forall s :: s in items ==> s.usedBytes >= 0
  }

  function TotalUsed(forecasts: seq<Forecast>): int {
    if forecasts == [] then 0
    else TotalUsed(forecasts[..|forecasts| - 1]) + forecasts[|forecasts| - 1].usedBytes
  }

  function LabelsOf<L>(labelOf: Forecast -> L, forecasts: seq<Forecast>): seq<L> {
    if forecasts == [] then []
    else LabelsOf(labelOf, forecasts[..|forecasts| - 1]) + [labelOf(forecasts[|forecasts| - 1])]
  }

  /** Every forecast counts the usage that carries its label. */
  ghost predicate Accounts<L>(
    labelOf: PVCSummary -> L, forecastLabel: Forecast -> L, forecasts: seq<Forecast>, items: seq<PVCSummary>)
  {
    forall f :: f in forecasts ==> f.usedBytes == UsedWhere(Labelled(labelOf, forecastLabel(f)), items)
  }

  // ---------------------------------------------------------------------------
  // Adding up
  // ---------------------------------------------------------------------------

  lemma {:induction false} NoLabels<L>(labelOf: PVCSummary -> L, items: seq<PVCSummary>)
    ensures UsedWhere(LabelledIn(labelOf, []), items) == 0
  {
    if items != [] {
      NoLabels(labelOf, items[..|items| - 1]);
    }
  }

  lemma {:induction false} OneMoreLabel<L>(labelOf: PVCSummary -> L, ls: seq<L>, l: L, items: seq<PVCSummary>)
    requires l !in ls
    ensures UsedWhere(LabelledIn(labelOf, ls + [l]), items)
            == UsedWhere(LabelledIn(labelOf, ls), items) + UsedWhere(Labelled(labelOf, l), items)
  {
    if items != [] {
      OneMoreLabel(labelOf, ls, l, items[..|items| - 1]);
    }
  }

  lemma {:induction false} LabelsOfMember<L>(labelOf: Forecast -> L, forecasts: seq<Forecast>, l: L)
    requires l in LabelsOf(labelOf, forecasts)
    ensures exists i :: 0 <= i < |forecasts| && labelOf(forecasts[i]) == l
  {
    var front := forecasts[..|forecasts| - 1];
    if l in LabelsOf(labelOf, front) {
      LabelsOfMember(labelOf, front, l);
      var i :| 0 <= i < |front| && labelOf(front[i]) == l;
      assert forecasts[i] == front[i];
    }
  }

  /** Forecasts with different labels add up to exactly the usage that carries one of their labels. */
  lemma {:induction false} ForecastsAddUp<L>(
    labelOf: PVCSummary -> L, forecastLabel: Forecast -> L, forecasts: seq<Forecast>, items: seq<PVCSummary>)
    requires Accounts(labelOf, forecastLabel, forecasts, items)
    requires DistinctBy(forecastLabel, forecasts)
    ensures TotalUsed(forecasts) == UsedWhere(LabelledIn(labelOf, LabelsOf(forecastLabel, forecasts)), items)
    ensures TotalUsed(forecasts) == Total(Bytes(LabelledIn(labelOf, LabelsOf(forecastLabel, forecasts)), items))
  {
    var covered := LabelledIn(labelOf, LabelsOf(forecastLabel, forecasts));
    UsedIsTotal(covered, covered, items);
    hide UsedWhere, Labelled, LabelledIn, Total, Bytes;
    if forecasts == [] {
      NoLabels(labelOf, items);
    } else {
      var front, last := forecasts[..|forecasts| - 1], forecasts[|forecasts| - 1];
      ForecastsAddUp(labelOf, forecastLabel, front, items);
      var ls, l := LabelsOf(forecastLabel, front), forecastLabel(last);
      if l in ls {
        LabelsOfMember(forecastLabel, front, l);
        assert false;
      }
      OneMoreLabel(labelOf, ls, l, items);
    }
  }

  lemma {:induction false} UsedMonotone(keep: PVCSummary -> bool, keep': PVCSummary -> bool, items: seq<PVCSummary>)
    requires NonNegative(items)
    requires forall s :: keep(s) ==> keep'(s)
    ensures UsedWhere(keep, items) <= UsedWhere(keep', items)
  {
    if items != [] {
      UsedMonotone(keep, keep', items[..|items| - 1]);
      assert items[|items| - 1] in items;
    }
  }

  // ---------------------------------------------------------------------------
  // Where forecasts come from
  // ---------------------------------------------------------------------------

  lemma {:induction false} CollectedFrom<B>(forecast: B -> Option<Forecast>, budgets: seq<B>, f: Forecast) returns (i: nat)
    requires f in Collect(forecast, budgets)
    ensures i < |budgets| && forecast(budgets[i]) == Some(f)
  {
    var front := budgets[..|budgets| - 1];
    if f in Collect(forecast, front) {
      i := CollectedFrom(forecast, front, f);
    } else {
      i := |budgets| - 1;
    }
  }

  lemma {:induction false} CollectedDistinct<B, L>(
    forecast: B -> Option<Forecast>, budgetLabel: B -> L, forecastLabel: Forecast -> L, budgets: seq<B>)
    requires DistinctBy(budgetLabel, budgets)
    requires forall b :: forecast(b).Some? ==> forecastLabel(forecast(b).value) == budgetLabel(b)
    ensures DistinctBy(forecastLabel, Collect(forecast, budgets))
  {
    if budgets != [] {
      var front, last := budgets[..|budgets| - 1], budgets[|budgets| - 1];
      CollectedDistinct(forecast, budgetLabel, forecastLabel, front);
      var collected := Collect(forecast, front);
      if forecast(last).Some? {
        forall k | 0 <= k < |collected| ensures forecastLabel(collected[k]) != forecastLabel(forecast(last).value) {
          var i := CollectedFrom(forecast, front, collected[k]);
          assert front[i] == budgets[i];
        }
      }
    }
  }

  lemma DistinctPermutes<L>(labelOf: Forecast -> L, s: seq<Forecast>, t: seq<Forecast>)
    requires DistinctBy(labelOf, s) && Permutation(s, t)
    ensures DistinctBy(labelOf, t)
  {
    var apart := (f: Forecast, g: Forecast) => labelOf(f) != labelOf(g);
    assert Separated(apart, s);
    SeparatedPermutes(apart, s, t);
    forall i, j | 0 <= i < j < |t| ensures labelOf(t[i]) != labelOf(t[j]) {
      var f, g := t[i], t[j];
      assert apart(f, g) || apart(g, f);
    }
  }

  /** What holds of every budget's forecast holds of every forecast listed. */
  lemma RankedFrom<B>(forecast: B -> Option<Forecast>, budgets: seq<B>, out: seq<Forecast>, f: Forecast) returns (i: nat)
    requires RankedForecasts(forecast, budgets, out) && f in out
    ensures i < |budgets| && forecast(budgets[i]) == Some(f)
  {
    assert f in multiset(Collect(forecast, budgets));
    i := CollectedFrom(forecast, budgets, f);
  }

  // ---------------------------------------------------------------------------
  // Conservation
  // ---------------------------------------------------------------------------

  function NamespaceOf(f: Forecast): string { f.namespace }

  function OwnerOfForecast(f: Forecast): Option<Owner> { Some(Owner(f.namespace, FoldAll(f.kind), f.name)) }

  function BudgetNamespace(b: NamespaceBudget): string { TrimSpace(b.namespace) }

  function BudgetOwner(b: WorkloadBudget): Option<Owner> { Some(OwnerOfBudget(b)) }

  function All(s: PVCSummary): bool { true }

  lemma NamespaceForecastsAccount(
    now: int, budgets: seq<NamespaceBudget>, items: seq<PVCSummary>, risks: map<Key, RiskSignal>, out: seq<Forecast>)
    requires RankedForecasts(NamespaceForecasts(now, items, risks), budgets, out)
    ensures Accounts(ByNamespace(), NamespaceOf, out, items)
  {
    hide RankedForecasts, UsedWhere, GrowthWhere, BreachProjection;
    forall f | f in out ensures f.usedBytes == UsedWhere(Labelled(ByNamespace(), NamespaceOf(f)), items) {
      var i := RankedFrom(NamespaceForecasts(now, items, risks), budgets, out, f);
    }
  }

  lemma WorkloadForecastsAccount(
    now: int, budgets: seq<WorkloadBudget>, items: seq<PVCSummary>, risks: map<Key, RiskSignal>,
    workloads: map<Key, WorkloadRef>, out: seq<Forecast>)
    requires RankedForecasts(WorkloadForecasts(now, items, risks, workloads), budgets, out)
    ensures Accounts(ByOwner(workloads), OwnerOfForecast, out, items)
  {
    hide RankedForecasts, UsedWhere, GrowthWhere, BreachProjection, FoldAll, TrimSpace;
    forall f | f in out ensures f.usedBytes == UsedWhere(Labelled(ByOwner(workloads), OwnerOfForecast(f)), items) {
      var i := RankedFrom(WorkloadForecasts(now, items, risks, workloads), budgets, out, f);
    }
  }

  /** The forecasts of different namespaces never exceed the total usage. */
  lemma NamespacesWithinTotal(
    now: int, budgets: seq<NamespaceBudget>, items: seq<PVCSummary>, risks: map<Key, RiskSignal>, out: seq<Forecast>)
    requires NonNegative(items) && DistinctBy(BudgetNamespace, budgets)
    requires RankedForecasts(NamespaceForecasts(now, items, risks), budgets, out)
    ensures TotalUsed(out) <= UsedWhere(All, items)
  {
    var forecast := NamespaceForecasts(now, items, risks);
    NamespaceForecastsAccount(now, budgets, items, risks, out);
    CollectedDistinct(forecast, BudgetNamespace, NamespaceOf, budgets);
    DistinctPermutes(NamespaceOf, Collect(forecast, budgets), out);
    ForecastsAddUp(ByNamespace(), NamespaceOf, out, items);
    UsedMonotone(LabelledIn(ByNamespace(), LabelsOf(NamespaceOf, out)), All, items);
  }

  function InNamespace(ns: string): Forecast -> bool {
    (f: Forecast) => f.namespace == ns
  }

  lemma FilterDistinct<L>(labelOf: Forecast -> L, keep: Forecast -> bool, s: seq<Forecast>)
    requires DistinctBy(labelOf, s)
    ensures DistinctBy(labelOf, Filter(keep, s))
    ensures forall f :: f in Filter(keep, s) ==> f in s && keep(f)
  {
    var apart := (f: Forecast, g: Forecast) => labelOf(f) != labelOf(g);
    assert Separated(apart, s);
    FilterSeparated(apart, keep, s);
    var t := Filter(keep, s);
    forall i, j | 0 <= i < j < |t| ensures labelOf(t[i]) != labelOf(t[j]) {
      var f, g := t[i], t[j];
      assert apart(f, g) || apart(g, f);
    }
  }

  lemma OwnersAreInNamespace(workloads: map<Key, WorkloadRef>, ns: string, forecasts: seq<Forecast>, s: PVCSummary)
    requires forall f :: f in forecasts ==> f.namespace == ns
    requires LabelledIn(ByOwner(workloads), LabelsOf(OwnerOfForecast, forecasts))(s)
    ensures Labelled(ByNamespace(), ns)(s)
  {
    LabelsOfMember(OwnerOfForecast, forecasts, ByOwner(workloads)(s));
  }

  /** The forecasts of different workloads of a namespace never exceed that namespace's usage. */
  lemma WorkloadsWithinNamespace(
    now: int, budgets: seq<WorkloadBudget>, items: seq<PVCSummary>, risks: map<Key, RiskSignal>,
    workloads: map<Key, WorkloadRef>, out: seq<Forecast>, ns: string)
    requires NonNegative(items) && DistinctBy(BudgetOwner, budgets)
    requires RankedForecasts(WorkloadForecasts(now, items, risks, workloads), budgets, out)
    ensures TotalUsed(Filter(InNamespace(ns), out)) <= UsedWhere(Labelled(ByNamespace(), ns), items)
  {
    var forecast := WorkloadForecasts(now, items, risks, workloads);
    WorkloadForecastsAccount(now, budgets, items, risks, workloads, out);
    hide FoldAll, TrimSpace, UsedWhere, GrowthWhere, MakeForecast, Labelled, LabelledIn, ByOwner, ByNamespace;
    CollectedDistinct(forecast, BudgetOwner, OwnerOfForecast, budgets);
    DistinctPermutes(OwnerOfForecast, Collect(forecast, budgets), out);
    var here := Filter(InNamespace(ns), out);
    FilterDistinct(OwnerOfForecast, InNamespace(ns), out);
    ForecastsAddUp(ByOwner(workloads), OwnerOfForecast, here, items);
    var owned := LabelledIn(ByOwner(workloads), LabelsOf(OwnerOfForecast, here));
    forall s | owned(s) ensures Labelled(ByNamespace(), ns)(s) {
      OwnersAreInNamespace(workloads, ns, here, s);
    }
    UsedMonotone(owned, Labelled(ByNamespace(), ns), items);
  }

  /** In one reconcile: a namespace's workload forecasts add up to no more than its own forecast. */
  lemma BudgetConservation(
    now: int, namespaceBudgets: seq<NamespaceBudget>, workloadBudgets: seq<WorkloadBudget>, items: seq<PVCSummary>,
    risks: map<Key, RiskSignal>, workloads: map<Key, WorkloadRef>, namespaceOut: seq<Forecast>,
    workloadOut: seq<Forecast>, f: Forecast)
    requires NonNegative(items) && DistinctBy(BudgetOwner, workloadBudgets)
    requires RankedForecasts(NamespaceForecasts(now, items, risks), namespaceBudgets, namespaceOut)
    requires RankedForecasts(WorkloadForecasts(now, items, risks, workloads), workloadBudgets, workloadOut)
    requires f in namespaceOut
    ensures TotalUsed(Filter(InNamespace(f.namespace), workloadOut)) <= f.usedBytes
  {
    hide RankedForecasts, UsedWhere, NonNegative, DistinctBy;
    NamespaceForecastsAccount(now, namespaceBudgets, items, risks, namespaceOut);
    WorkloadsWithinNamespace(now, workloadBudgets, items, risks, workloads, workloadOut, f.namespace);
  }

  /** A forecast that says when its budget is reached is right about it. */
  ghost predicate ReachesBudget(f: Forecast) {
    && f.budgetBytes > 0
    && f.usageRatio * f.budgetBytes as real == f.usedBytes as real
    && (f.daysUntilBreach.None? <==> f.usedBytes < f.budgetBytes && f.growthBytesPerDay <= 0.0)
    && (f.daysUntilBreach == Some(0.0) <==> f.usedBytes >= f.budgetBytes)
    && (f.daysUntilBreach.Some? && f.daysUntilBreach.value != 0.0 ==>
          f.usedBytes as real + f.growthBytesPerDay * f.daysUntilBreach.value == f.budgetBytes as real)
  }

  lemma MadeForecastReachesBudget(
    now: int, scope: Scope, ns: string, kind: string, name: string, budget: int, used: int, growth: real)
    requires budget > 0
    ensures ReachesBudget(MakeForecast(now, scope, ns, kind, name, budget, used, growth))
  {
    BreachMeaning(now, used, budget, growth);
    hide BreachProjection;
    assert Ratio(used, budget) * budget as real == used as real;
  }

  lemma NamespaceForecastReachesBudget(
    now: int, b: NamespaceBudget, items: seq<PVCSummary>, risks: map<Key, RiskSignal>)
    ensures
      var forecast := NamespaceForecasts(now, items, risks)(b);
      forecast.Some? ==> ReachesBudget(forecast.value)
  {
    hide UsedWhere, GrowthWhere, MakeForecast, TrimSpace, ReachesBudget;
    if NamespaceForecasts(now, items, risks)(b).Some? {
      var keep := Labelled(ByNamespace(), TrimSpace(b.namespace));
      MadeForecastReachesBudget(now, Namespace, TrimSpace(b.namespace), "", "", b.budget.value,
                                UsedWhere(keep, items), GrowthWhere(keep, items, risks));
    }
  }

  lemma WorkloadForecastReachesBudget(
    now: int, b: WorkloadBudget, items: seq<PVCSummary>, risks: map<Key, RiskSignal>, workloads: map<Key, WorkloadRef>)
    ensures
      var forecast := WorkloadForecasts(now, items, risks, workloads)(b);
      forecast.Some? ==> ReachesBudget(forecast.value)
  {
    hide UsedWhere, GrowthWhere, MakeForecast, TrimSpace, FoldAll, ReachesBudget;
    if WorkloadForecasts(now, items, risks, workloads)(b).Some? {
      var keep := Labelled(ByOwner(workloads), Some(OwnerOfBudget(b)));
      MadeForecastReachesBudget(now, Workload, TrimSpace(b.namespace), TrimSpace(b.kind), TrimSpace(b.name),
                                b.budget.value, UsedWhere(keep, items), GrowthWhere(keep, items, risks));
    }
  }

  lemma ForecastsReachBudget(
    now: int, namespaceBudgets: seq<NamespaceBudget>, workloadBudgets: seq<WorkloadBudget>, items: seq<PVCSummary>,
    risks: map<Key, RiskSignal>, workloads: map<Key, WorkloadRef>, namespaceOut: seq<Forecast>,
    workloadOut: seq<Forecast>, f: Forecast)
    requires RankedForecasts(NamespaceForecasts(now, items, risks), namespaceBudgets, namespaceOut)
    requires RankedForecasts(WorkloadForecasts(now, items, risks, workloads), workloadBudgets, workloadOut)
    requires f in namespaceOut || f in workloadOut
    ensures ReachesBudget(f)
  {
    hide RankedForecasts, NamespaceForecasts, WorkloadForecasts, ReachesBudget;
    if f in namespaceOut {
      var i := RankedFrom(NamespaceForecasts(now, items, risks), namespaceBudgets, namespaceOut, f);
      NamespaceForecastReachesBudget(now, namespaceBudgets[i], items, risks);
    } else {
      var i := RankedFrom(WorkloadForecasts(now, items, risks, workloads), workloadBudgets, workloadOut, f);
      WorkloadForecastReachesBudget(now, workloadBudgets[i], items, risks, workloads);
    }
  }

  /** The budget that is reached first is listed first, and those never reached last. */
  lemma SoonestBreachFirst<B>(forecast: B -> Option<Forecast>, budgets: seq<B>, out: seq<Forecast>, i: nat, j: nat)
    requires RankedForecasts(forecast, budgets, out) && i < j < |out|
    ensures DaysOrMax(out[i].daysUntilBreach) <= DaysOrMax(out[j].daysUntilBreach)
  {
    hide DaysOrMax, Collect;
    var first, later := out[i], out[j];
    assert !ForecastLess(later, first);
  }

  // ---------------------------------------------------------------------------
  // Order of the budgets
  // ---------------------------------------------------------------------------

  function Id(f: Forecast): (string, string, string) { (f.namespace, f.kind, f.name) }

  lemma IdsSeparate(forecasts: seq<Forecast>)
    requires DistinctBy(Id, forecasts)
    ensures Separated(ForecastLess, forecasts)
  {
    hide DaysOrMax;
    StringOrder();
    forall i, j | 0 <= i < j < |forecasts|
      ensures ForecastLess(forecasts[i], forecasts[j]) || ForecastLess(forecasts[j], forecasts[i])
    {
      assert Id(forecasts[i]) != Id(forecasts[j]);
    }
  }

  lemma {:induction false} CollectPermutes<B(!new)>(forecast: B -> Option<Forecast>, budgets: seq<B>, budgets': seq<B>)
    requires Permutation(budgets, budgets')
    ensures Permutation(Collect(forecast, budgets), Collect(forecast, budgets'))
  {
    if budgets == [] {
      PermutationLength(budgets, budgets');
    } else {
      var i := TakeOutLast(budgets, budgets');
      CollectPermutes(forecast, budgets[..|budgets| - 1], budgets'[..i] + budgets'[i + 1..]);
      hide Permutation;
      CollectTakeOut(forecast, budgets', i);
    }
  }

  lemma {:induction false} CollectAppend<B>(forecast: B -> Option<Forecast>, s: seq<B>, t: seq<B>)
    ensures Collect(forecast, s + t) == Collect(forecast, s) + Collect(forecast, t)
  {
    if t == [] {
      assert s + t == s;
    } else {
      CollectAppend(forecast, s, t[..|t| - 1]);
      assert (s + t)[..|s + t| - 1] == s + t[..|t| - 1];
    }
  }

  function Own(forecast: Option<Forecast>): seq<Forecast> {
    if forecast.Some? then [forecast.value] else []
  }

  lemma CollectOne<B>(forecast: B -> Option<Forecast>, b: B)
    ensures Collect(forecast, [b]) == Own(forecast(b))
  {
    assert [b][..0] == [];
  }

  lemma CollectTakeOut<B>(forecast: B -> Option<Forecast>, budgets: seq<B>, i: nat)
    requires i < |budgets|
    ensures
      multiset(Collect(forecast, budgets))
      == multiset(Collect(forecast, budgets[..i] + budgets[i + 1..])) + multiset(Own(forecast(budgets[i])))
  {
    hide Own, Collect;
    var front, b, back := budgets[..i], budgets[i], budgets[i + 1..];
    CollectAppend(forecast, front, [b] + back);
    CollectAppend(forecast, [b], back);
    CollectAppend(forecast, front, back);
    CollectOne(forecast, b);
    assert budgets == front + ([b] + back);
  }

  lemma ForecastsDetermined<B(!new)>(
    forecast: B -> Option<Forecast>, budgets: seq<B>, budgets': seq<B>, out: seq<Forecast>, out': seq<Forecast>)
    requires Permutation(budgets, budgets') && DistinctBy(Id, Collect(forecast, budgets))
    requires RankedForecasts(forecast, budgets, out) && RankedForecasts(forecast, budgets', out')
    ensures out == out'
  {
    CollectPermutes(forecast, budgets, budgets');
    DistinctPermutes(Id, Collect(forecast, budgets), out);
    IdsSeparate(out);
    SortUnique(ForecastLess, out, out');
  }

  function NamespaceTarget(b: NamespaceBudget): (string, string, string) { (TrimSpace(b.namespace), "", "") }

  function WorkloadTarget(b: WorkloadBudget): (string, string, string) {
    (TrimSpace(b.namespace), TrimSpace(b.kind), TrimSpace(b.name))
  }

  /** Budgets with different targets are forecast in the same order however they are listed. */
  lemma BudgetOrderIrrelevant(
    now: int, items: seq<PVCSummary>, risks: map<Key, RiskSignal>, workloads: map<Key, WorkloadRef>,
    namespaceBudgets: seq<NamespaceBudget>, namespaceBudgets': seq<NamespaceBudget>,
    workloadBudgets: seq<WorkloadBudget>, workloadBudgets': seq<WorkloadBudget>,
    namespaceOut: seq<Forecast>, namespaceOut': seq<Forecast>, workloadOut: seq<Forecast>, workloadOut': seq<Forecast>)
    requires Permutation(namespaceBudgets, namespaceBudgets') && DistinctBy(NamespaceTarget, namespaceBudgets)
    requires Permutation(workloadBudgets, workloadBudgets') && DistinctBy(WorkloadTarget, workloadBudgets)
    requires RankedForecasts(NamespaceForecasts(now, items, risks), namespaceBudgets, namespaceOut)
    requires RankedForecasts(NamespaceForecasts(now, items, risks), namespaceBudgets', namespaceOut')
    requires RankedForecasts(WorkloadForecasts(now, items, risks, workloads), workloadBudgets, workloadOut)
    requires RankedForecasts(WorkloadForecasts(now, items, risks, workloads), workloadBudgets', workloadOut')
    ensures namespaceOut == namespaceOut' && workloadOut == workloadOut'
  {
    hide RankedForecasts, UsedWhere, GrowthWhere, BreachProjection, Permutation, TrimSpace;
    var namespaceForecast := NamespaceForecasts(now, items, risks);
    var workloadForecast := WorkloadForecasts(now, items, risks, workloads);
    CollectedDistinct(namespaceForecast, NamespaceTarget, Id, namespaceBudgets);
    CollectedDistinct(workloadForecast, WorkloadTarget, Id, workloadBudgets);
    ForecastsDetermined(namespaceForecast, namespaceBudgets, namespaceBudgets', namespaceOut, namespaceOut');
    ForecastsDetermined(workloadForecast, workloadBudgets, workloadBudgets', workloadOut, workloadOut');
  }
}
