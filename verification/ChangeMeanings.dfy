/** What a report of risk changes says about the two lists of risks it compares. */
module ChangeMeanings {

  import opened Keys
  import opened Options
  import opened Ordering
  import opened PlanTypes
  import opened RiskChanges

  /** The risk a list shows under a key: the last one there. */
  ghost predicate LastUnder(risks: seq<RiskSummary>, key: Key, i: int) {
    && 0 <= i < |risks| && KeyOf(risks[i].namespace, risks[i].name) == key
    && forall j :: i < j < |risks| ==> KeyOf(risks[j].namespace, risks[j].name) != key
  }

  lemma {:induction false} LastIsIndexed(risks: seq<RiskSummary>, key: Key, i: int)
    requires LastUnder(risks, key, i)
    ensures key in Index(risks) && Index(risks)[key] == risks[i]
  {
    hide KeyOf, WellKeyed;
    var n := |risks| - 1;
    if i < n {
      assert KeyOf(risks[n].namespace, risks[n].name) != key;
      LastIsIndexed(risks[..n], key, i);
    }
  }

  lemma {:induction false} IndexedHasLast(risks: seq<RiskSummary>, key: Key) returns (i: nat)
    requires key in Index(risks)
    ensures LastUnder(risks, key, i)
  {
    hide KeyOf, WellKeyed;
    var n := |risks| - 1;
    if KeyOf(risks[n].namespace, risks[n].name) == key {
      i := n;
    } else {
      i := IndexedHasLast(risks[..n], key);
    }
  }

  /** A key is compared by the last risk that a list shows under it. */
  lemma IndexIsLast(risks: seq<RiskSummary>, key: Key)
    ensures key in Index(risks) <==> exists i :: LastUnder(risks, key, i)
    ensures forall i :: LastUnder(risks, key, i) ==> Index(risks)[key] == risks[i]
  {
    hide Index;
    if key in Index(risks) {
      var i := IndexedHasLast(risks, key);
    }
    forall i | LastUnder(risks, key, i) ensures key in Index(risks) && Index(risks)[key] == risks[i] {
      LastIsIndexed(risks, key, i);
    }
  }

  /** The change carries the growth and the dates of the two risks; what is missing on one side is zero or absent. */
  ghost predicate Compares(c: Change, prev: Option<RiskSummary>, curr: Option<RiskSummary>) {
    && c.previousGrowth == (if prev.Some? then prev.value.weeklyGrowthBytesPerDay else 0.0)
    && c.currentGrowth == (if curr.Some? then curr.value.weeklyGrowthBytesPerDay else 0.0)
    && c.previousFullAt == (if prev.Some? then prev.value.projectedFullAt else None)
    && c.currentFullAt == (if curr.Some? then curr.value.projectedFullAt else None)
  }

  function Find(risks: Risks, key: Key): Option<RiskSummary> {
    if key in risks then Some(risks[key]) else None
  }

  ghost predicate Explains(c: Change, prev: RiskSummary, curr: RiskSummary) {
    match c.reason
    case DateMovedEarlier => MovedUp(prev, curr)
    case GrowthIncreased => Accelerated(prev, curr) && !MovedUp(prev, curr)
    case StartedFiring => Fired(prev, curr) && !Accelerated(prev, curr) && !MovedUp(prev, curr)
    case Entered => false
    case DroppedOut => false
  }

  lemma ChangeAtMeans(prev: Risks, curr: Risks, now: int, key: Key)
    requires ChangeAt(prev, curr, now, key).Some?
    ensures
      var c := ChangeAt(prev, curr, now, key).value;
      && c.time == now && Compares(c, Find(prev, key), Find(curr, key))
      && (c.kind == New ==> key !in prev && key in curr && c.reason == Entered)
      && (c.kind == Recovered ==> key in prev && key !in curr && c.reason == DroppedOut)
      && (c.kind == Escalated ==> key in prev && key in curr && Explains(c, prev[key], curr[key]))
  {
    if key in prev && key in curr {
      EscalatesExactly(prev[key], curr[key]);
    }
    hide IsEscalatedRisk, EscalationReason, Accelerated, MovedUp, Fired;
  }

  /** Every change of a report tells the growth and dates of the two lists, and gives a reason that is true. */
  lemma ChangesTellTheRisks(prev: seq<RiskSummary>, curr: seq<RiskSummary>, now: int, out: seq<Change>, c: Change)
    requires Reports(prev, curr, now, out) && c in out
    ensures
      var key, before, after := KeyOf(c.namespace, c.name), Index(prev), Index(curr);
      && c.time == now && Compares(c, Find(before, key), Find(after, key))
      && (c.kind == New ==> key !in before && key in after && c.reason == Entered)
      && (c.kind == Recovered ==> key in before && key !in after && c.reason == DroppedOut)
      && (c.kind == Escalated ==> key in before && key in after && Explains(c, before[key], after[key]))
  {
    hide ChangeAt, Index, Compares, Explains;
    ChangeAtMeans(Index(prev), Index(curr), now, KeyOfChange(c));
  }

  /**
   A PVC that is on both lists is in the report exactly when it grows more than a fifth faster, or
   is full more than a day earlier, or its alert started firing.
   */
  lemma EscalatedExactly(prev: seq<RiskSummary>, curr: seq<RiskSummary>, now: int, out: seq<Change>, key: Key)
    requires Reports(prev, curr, now, out) && key in Index(prev) && key in Index(curr)
    ensures
      var before, after := Index(prev)[key], Index(curr)[key];
      (exists c :: c in out && KeyOf(c.namespace, c.name) == key)
      <==> Accelerated(before, after) || MovedUp(before, after) || Fired(before, after)
  {
    hide Accelerated, MovedUp, Fired, IsEscalatedRisk, EscalationReason, Index;
    EscalatesExactly(Index(prev)[key], Index(curr)[key]);
    var here := ChangeAt(Index(prev), Index(curr), now, key);
    if here.Some? {
      ChangeIsAtItsKey(Index(prev), Index(curr), now, key);
      assert here.value in out;
      assert KeyOfChange(here.value) == key;
    }
    if c :| c in out && KeyOf(c.namespace, c.name) == key {
      assert KeyOfChange(c) == key;
    }
  }

  /** The changes are listed by the names of their kinds, and then by namespace and name, in dictionary order. */
  lemma ChangesAreListed(prev: seq<RiskSummary>, curr: seq<RiskSummary>, now: int, out: seq<Change>, i: nat, j: nat)
    requires Reports(prev, curr, now, out) && i < j < |out|
    ensures !WordsLess([TypeName(out[j].kind), out[j].namespace, out[j].name],
                       [TypeName(out[i].kind), out[i].namespace, out[i].name])
  {
    hide ReportsOn;
    var a, b := out[i], out[j];
    assert !ChangeLess(b, a);
    TypeRankIsByName(b.kind, a.kind);
    TypeRankIsByName(a.kind, b.kind);
    WordsOfThree([TypeName(b.kind), b.namespace, b.name], [TypeName(a.kind), a.namespace, a.name]);
    StringOrder();
    assert a.kind != b.kind ==> TypeRank(a.kind) != TypeRank(b.kind);
    hide TypeName, TypeRank, WordsLess, StringLess;
  }

  /** The stored date is the second of the other one. */
  ghost predicate CutToSecond(kept: Option<int>, t: Option<int>) {
    && (kept.Some? <==> t.Some?)
    && (t.Some? && kept.Some? ==>
          kept.value % 1_000_000_000 == 0 && kept.value <= t.value < kept.value + 1_000_000_000)
  }

  /** What a successful update stores is the risks themselves, with their dates cut to the second. */
  lemma StoredRisksTell(risks: seq<RiskSummary>, i: nat)
    requires i < |risks|
    ensures
      var (r, kept) := (risks[i], StoredRisks(risks)[i]);
      && |StoredRisks(risks)| == |risks|
      && kept.(projectedFullAt := None) == r.(projectedFullAt := None)
      && CutToSecond(kept.projectedFullAt, r.projectedFullAt)
  {
  }

  /** The changes are stored as they are, with their dates and time cut to the second. */
  lemma StoredChangesTell(changes: seq<Change>, i: nat)
    requires i < |changes|
    ensures
      var (c, kept) := (changes[i], StoredChanges(changes)[i]);
      && |StoredChanges(changes)| == |changes|
      && kept.(previousFullAt := None, currentFullAt := None, time := 0)
         == c.(previousFullAt := None, currentFullAt := None, time := 0)
      && CutToSecond(kept.previousFullAt, c.previousFullAt) && CutToSecond(kept.currentFullAt, c.currentFullAt)
      && CutToSecond(Some(kept.time), Some(c.time))
  {
  }
}
