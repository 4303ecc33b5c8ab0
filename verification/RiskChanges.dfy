/** What changed between the persisted top risks and the new ones. */
module RiskChanges {

  import opened Keys
  import opened Options
  import opened Ordering
  import opened PlanTypes
  import opened Times

  const GROWTH_FACTOR := 1.20
  const DATE_DELTA := 24 * HOUR

  datatype ChangeType = Escalated | New | Recovered

  /** What the change's message says. */
  datatype Reason = Entered | DateMovedEarlier | GrowthIncreased | StartedFiring | DroppedOut

  datatype Change = Change(
    kind: ChangeType, namespace: string, name: string, previousGrowth: real, currentGrowth: real,
    previousFullAt: Option<int>, currentFullAt: Option<int>, reason: Reason, time: int)

  type Risks = map<Key, RiskSummary>

  function TypeName(t: ChangeType): string {
    match t
    case Escalated => "escalated"
    case New => "new"
    case Recovered => "recovered"
  }

  /** The place of a type among the three, by name. */
  function TypeRank(t: ChangeType): nat {
    match t
    case Escalated => 0
    case New => 1
    case Recovered => 2
  }

  lemma TypeRankIsByName(t: ChangeType, u: ChangeType)
    ensures TypeRank(t) < TypeRank(u) <==> StringLess(TypeName(t), TypeName(u))
  {
    assert TypeName(Escalated)[0] == 'e' && TypeName(New)[0] == 'n' && TypeName(Recovered)[0] == 'r';
    StringOrder();
  }

  predicate ChangeLess(a: Change, b: Change) {
    if a.kind != b.kind then TypeRank(a.kind) < TypeRank(b.kind)
    else if a.namespace != b.namespace then StringLess(a.namespace, b.namespace)
    else StringLess(a.name, b.name)
  }

  predicate GrewFaster(prev: RiskSummary, curr: RiskSummary) {
    && prev.weeklyGrowthBytesPerDay > 0.0
    && curr.weeklyGrowthBytesPerDay > prev.weeklyGrowthBytesPerDay * GROWTH_FACTOR
  }

  predicate FillsSooner(prev: RiskSummary, curr: RiskSummary) {
    && prev.projectedFullAt.Some?
    && curr.projectedFullAt.Some?
    && curr.projectedFullAt.value < prev.projectedFullAt.value - DATE_DELTA
  }

  predicate IsEscalatedRisk(prev: RiskSummary, curr: RiskSummary) {
    GrewFaster(prev, curr) || FillsSooner(prev, curr) || (!prev.alertFiring && curr.alertFiring)
  }

  function EscalationReason(prev: RiskSummary, curr: RiskSummary): Reason {
    if FillsSooner(prev, curr) then DateMovedEarlier
    else if GrewFaster(prev, curr) then GrowthIncreased
    else StartedFiring
  }

  /** More than a fifth faster, from a growth that was positive. */
  ghost predicate Accelerated(prev: RiskSummary, curr: RiskSummary) {
    prev.weeklyGrowthBytesPerDay > 0.0 && 5.0 * curr.weeklyGrowthBytesPerDay > 6.0 * prev.weeklyGrowthBytesPerDay
  }

  /** Full more than a day earlier than was predicted. */
  ghost predicate MovedUp(prev: RiskSummary, curr: RiskSummary) {
    prev.projectedFullAt.Some? && curr.projectedFullAt.Some?
    && prev.projectedFullAt.value - curr.projectedFullAt.value > 24 * 3600 * 1_000_000_000
  }

  ghost predicate Fired(prev: RiskSummary, curr: RiskSummary) {
    curr.alertFiring && !prev.alertFiring
  }

  lemma EscalatesExactly(prev: RiskSummary, curr: RiskSummary)
    ensures IsEscalatedRisk(prev, curr) <==> Accelerated(prev, curr) || MovedUp(prev, curr) || Fired(prev, curr)
    ensures (EscalationReason(prev, curr) == DateMovedEarlier <==> MovedUp(prev, curr))
    ensures (EscalationReason(prev, curr) == GrowthIncreased <==> Accelerated(prev, curr) && !MovedUp(prev, curr))
  {
  }

  /** An escalation's message is true: its last resort is only reached when the alert did start firing. */
  lemma EscalationReasonHolds(prev: RiskSummary, curr: RiskSummary)
    requires IsEscalatedRisk(prev, curr)
    ensures match EscalationReason(prev, curr)
            case DateMovedEarlier => MovedUp(prev, curr)
            case GrowthIncreased => Accelerated(prev, curr)
            case StartedFiring => Fired(prev, curr)
            case Entered => false
            case DroppedOut => false
  {
    EscalatesExactly(prev, curr);
    hide MovedUp, Accelerated, Fired;
  }

  /** An unchanged risk is no escalation, and two risks do not escalate each other for the same reason. */
  lemma EscalationHasDirection(prev: RiskSummary, curr: RiskSummary)
    requires IsEscalatedRisk(prev, curr) && IsEscalatedRisk(curr, prev)
    ensures prev != curr
    ensures EscalationReason(prev, curr) != EscalationReason(curr, prev)
  {
  }

  // ---------------------------------------------------------------------------
  // Detecting changes
  // ---------------------------------------------------------------------------

  /** The risks by key; the last of a key wins. */
  function Index(risks: seq<RiskSummary>): (r: Risks)
    ensures WellKeyed(r)
    ensures r.Keys == set x | x in risks :: KeyOf(x.namespace, x.name)
  {
    if risks == [] then map[]
    else
      var last := risks[|risks| - 1];
      assert risks == risks[..|risks| - 1] + [last];
      Index(risks[..|risks| - 1])[KeyOf(last.namespace, last.name) := last]
  }

  ghost predicate WellKeyed(risks: Risks) {
    forall key :: key in risks ==> KeyOf(risks[key].namespace, risks[key].name) == key
  }

  function KeyOfChange(c: Change): Key { KeyOf(c.namespace, c.name) }

  function EnteredChange(now: int, curr: RiskSummary): Change {
    Change(New, curr.namespace, curr.name, 0.0, curr.weeklyGrowthBytesPerDay, None, curr.projectedFullAt, Entered, now)
  }

  function EscalatedChange(now: int, prev: RiskSummary, curr: RiskSummary): Change {
    Change(Escalated, curr.namespace, curr.name, prev.weeklyGrowthBytesPerDay, curr.weeklyGrowthBytesPerDay,
           prev.projectedFullAt, curr.projectedFullAt, EscalationReason(prev, curr), now)
  }

  function RecoveredChange(now: int, prev: RiskSummary): Change {
    Change(Recovered, prev.namespace, prev.name, prev.weeklyGrowthBytesPerDay, 0.0, prev.projectedFullAt, None,
           DroppedOut, now)
  }

  /** What there is to say about a key of either set. */
  function ChangeAt(prev: Risks, curr: Risks, now: int, key: Key): Option<Change> {
    if key in curr then
      if key !in prev then Some(EnteredChange(now, curr[key]))
      else if IsEscalatedRisk(prev[key], curr[key]) then Some(EscalatedChange(now, prev[key], curr[key]))
      else None
    else if key in prev then Some(RecoveredChange(now, prev[key]))
    else None
  }

  ghost predicate OncePerKey(changes: seq<Change>) {
    forall i, j :: 0 <= i < j < |changes| ==> KeyOfChange(changes[i]) != KeyOfChange(changes[j])
  }

  /** The changes at the keys visited: each once, and nothing else. */
  ghost predicate ReportsOn(prev: Risks, curr: Risks, now: int, visited: set<Key>, out: seq<Change>) {
    && OncePerKey(out)
    && (forall c :: c in out <==> KeyOfChange(c) in visited && ChangeAt(prev, curr, now, KeyOfChange(c)) == Some(c))
  }

  lemma ChangeIsAtItsKey(prev: Risks, curr: Risks, now: int, key: Key)
    requires WellKeyed(prev) && WellKeyed(curr)
    requires ChangeAt(prev, curr, now, key).Some?
    ensures KeyOfChange(ChangeAt(prev, curr, now, key).value) == key
  {
  }

  lemma VisitKey(prev: Risks, curr: Risks, now: int, visited: set<Key>, out: seq<Change>, key: Key)
    requires WellKeyed(prev) && WellKeyed(curr)
    requires ReportsOn(prev, curr, now, visited, out) && key !in visited
    ensures
      var here := ChangeAt(prev, curr, now, key);
      ReportsOn(prev, curr, now, visited + {key}, if here.Some? then out + [here.value] else out)
  {
    var here := ChangeAt(prev, curr, now, key);
    if here.Some? {
      ChangeIsAtItsKey(prev, curr, now, key);
      hide ChangeAt, WellKeyed, KeyOfChange;
      forall i | 0 <= i < |out| ensures KeyOfChange(out[i]) != key {
        assert out[i] in out;
      }
    }
  }

  ghost predicate Reports(prev: seq<RiskSummary>, curr: seq<RiskSummary>, now: int, out: seq<Change>) {
    && ReportsOn(Index(prev), Index(curr), now, Index(prev).Keys + Index(curr).Keys, out)
    && Sorted(ChangeLess, out)
  }

  lemma ChangeLessIsStrictWeak()
    ensures StrictWeak(ChangeLess)
  {
    StringOrder();
  }

  lemma ReportsPermuted(prev: Risks, curr: Risks, now: int, visited: set<Key>, out: seq<Change>, sorted: seq<Change>)
    requires ReportsOn(prev, curr, now, visited, out) && Permutation(sorted, out)
    ensures ReportsOn(prev, curr, now, visited, sorted)
  {
    hide ChangeAt, KeyOfChange;
    forall c ensures c in sorted <==> c in out {
      assert c in sorted <==> c in multiset(sorted);
      assert c in out <==> c in multiset(out);
    }
    var apart := (c: Change, d: Change) => KeyOfChange(c) != KeyOfChange(d);
    assert Separated(apart, out);
    SeparatedPermutes(apart, out, sorted);
    forall i, j | 0 <= i < j < |sorted| ensures KeyOfChange(sorted[i]) != KeyOfChange(sorted[j]) {
      assert apart(sorted[i], sorted[j]) || apart(sorted[j], sorted[i]);
    }
  }

  /** Maps are walked in whatever order they come. */
  method DetectRiskChanges(now: int, previous: seq<RiskSummary>, current: seq<RiskSummary>) returns (out: seq<Change>)
    ensures Reports(previous, current, now, out)
  {
    hide Index, ReportsOn, WellKeyed, EscalationReason, IsEscalatedRisk, ChangeLess;
    var prevByKey: Risks := map[];
    var currByKey: Risks := map[];
    NoRisks();
    for i := 0 to |previous|
      invariant prevByKey == Index(previous[..i])
    {
      IndexStep(previous, i);
      prevByKey := prevByKey[KeyOf(previous[i].namespace, previous[i].name) := previous[i]];
    }
    for i := 0 to |current|
      invariant currByKey == Index(current[..i])
    {
      IndexStep(current, i);
      currByKey := currByKey[KeyOf(current[i].namespace, current[i].name) := current[i]];
    }
    assert previous[..|previous|] == previous && current[..|current|] == current;

    out := [];
    var pending := currByKey.Keys;
    NothingVisited(prevByKey, currByKey, now);
    while pending != {}
      invariant pending <= currByKey.Keys
      invariant ReportsOn(prevByKey, currByKey, now, currByKey.Keys - pending, out)
    {
      var key :| key in pending;
      VisitKey(prevByKey, currByKey, now, currByKey.Keys - pending, out, key);
      assert currByKey.Keys - (pending - {key}) == currByKey.Keys - pending + {key};
      pending := pending - {key};
      if key !in prevByKey {
        out := out + [EnteredChange(now, currByKey[key])];
      } else if IsEscalatedRisk(prevByKey[key], currByKey[key]) {
        out := out + [EscalatedChange(now, prevByKey[key], currByKey[key])];
      }
    }

    pending := prevByKey.Keys;
    ghost var visited := currByKey.Keys;
    assert currByKey.Keys - {} == visited;
    while pending != {}
      invariant pending <= prevByKey.Keys
      invariant visited == currByKey.Keys + (prevByKey.Keys - pending)
      invariant ReportsOn(prevByKey, currByKey, now, visited, out)
    {
      var key :| key in pending;
      pending := pending - {key};
      if key !in currByKey {
        VisitKey(prevByKey, currByKey, now, visited, out, key);
        out := out + [RecoveredChange(now, prevByKey[key])];
      } else {
        assert visited + {key} == visited;
      }
      visited := visited + {key};
    }
    assert visited == prevByKey.Keys + currByKey.Keys;
    ChangeLessIsStrictWeak();
    var sorted := SortSlice(out, ChangeLess);
    ReportsPermuted(prevByKey, currByKey, now, visited, out, sorted);
    return sorted;
  }

  lemma NoRisks()
    ensures Index([]) == map[] && Index([]).Keys == {}
  {
  }

  lemma IndexStep(risks: seq<RiskSummary>, i: nat)
    requires i < |risks|
    ensures Index(risks[..i + 1]) == Index(risks[..i])[KeyOf(risks[i].namespace, risks[i].name) := risks[i]]
  {
    assert risks[..i + 1][..i] == risks[..i];
  }

  lemma NothingVisited(prev: Risks, curr: Risks, now: int)
    ensures ReportsOn(prev, curr, now, curr.Keys - curr.Keys, [])
  {
  }

  // ---------------------------------------------------------------------------
  // What a report is
  // ---------------------------------------------------------------------------

  lemma AtMostOnce(changes: seq<Change>, c: Change)
    requires OncePerKey(changes)
    ensures multiset(changes)[c] == if c in changes then 1 else 0
  {
    if c in changes {
      var i :| 0 <= i < |changes| && changes[i] == c;
      assert changes == changes[..i] + [c] + changes[i + 1..];
      assert c !in changes[..i] && c !in changes[i + 1..];
    }
  }

  lemma ReportsSeparated(changes: seq<Change>)
    requires OncePerKey(changes)
    ensures Separated(ChangeLess, changes)
  {
    StringOrder();
  }

  /** The report is the same for every order in which the maps may be walked. */
  lemma ReportDetermined(
    prev: seq<RiskSummary>, curr: seq<RiskSummary>, now: int, out: seq<Change>, out': seq<Change>)
    requires Reports(prev, curr, now, out) && Reports(prev, curr, now, out')
    ensures out == out'
  {
    hide Index, ChangeAt, ChangeLess, KeyOfChange, OncePerKey;
    forall c ensures multiset(out)[c] == multiset(out')[c] {
      AtMostOnce(out, c);
      AtMostOnce(out', c);
      assert c in out <==> c in out';
    }
    ReportsSeparated(out);
    SortUnique(ChangeLess, out, out');
  }

  /** The kinds of change mean what they say, for every key. */
  lemma ReportMeans(prev: seq<RiskSummary>, curr: seq<RiskSummary>, now: int, out: seq<Change>, key: Key)
    requires Reports(prev, curr, now, out)
    ensures (exists c :: c in out && KeyOfChange(c) == key && c.kind == New)
            <==> key in Index(curr) && key !in Index(prev)
    ensures (exists c :: c in out && KeyOfChange(c) == key && c.kind == Recovered)
            <==> key in Index(prev) && key !in Index(curr)
    ensures (exists c :: c in out && KeyOfChange(c) == key && c.kind == Escalated)
            <==> key in Index(prev) && key in Index(curr)
                 && var (before, after) := (Index(prev)[key], Index(curr)[key]);
                    Accelerated(before, after) || MovedUp(before, after) || Fired(before, after)
  {
    if key in Index(prev) && key in Index(curr) {
      EscalatesExactly(Index(prev)[key], Index(curr)[key]);
    }
    hide Accelerated, MovedUp, Fired, IsEscalatedRisk, EscalationReason, ChangeLess, OncePerKey, KeyOfChange;
    var before, after := Index(prev), Index(curr);
    hide Index;
    var here := ChangeAt(before, after, now, key);
    if here.Some? {
      ChangeIsAtItsKey(before, after, now, key);
      hide WellKeyed;
      assert here.value in out;
    }
  }

  // ---------------------------------------------------------------------------
  // Replaying reports
  // ---------------------------------------------------------------------------

  /** A reader that keeps the set of top risks up to date from the changes alone. */
  function Follow(keys: set<Key>, changes: seq<Change>): set<Key> {
    if changes == [] then keys
    else
      var last := changes[|changes| - 1];
      var before := Follow(keys, changes[..|changes| - 1]);
      match last.kind
      case New => before + {KeyOfChange(last)}
      case Recovered => before - {KeyOfChange(last)}
      case Escalated => before
  }

  ghost predicate Mentions(changes: seq<Change>, key: Key, kind: ChangeType) {
    exists c :: c in changes && KeyOfChange(c) == key && c.kind == kind
  }

  lemma {:induction false} FollowMember(keys: set<Key>, changes: seq<Change>, key: Key)
    requires OncePerKey(changes)
    ensures key in Follow(keys, changes)
            <==> Mentions(changes, key, New) || (key in keys && !Mentions(changes, key, Recovered))
  {
    hide KeyOfChange;
    if changes != [] {
      var front, last := changes[..|changes| - 1], changes[|changes| - 1];
      FollowMember(keys, front, key);
      assert changes == front + [last];
      assert last in changes;
      forall kind ensures Mentions(changes, key, kind) <==>
                            Mentions(front, key, kind) || (KeyOfChange(last) == key && last.kind == kind) {
        hide OncePerKey;
      }
      if KeyOfChange(last) == key {
        forall kind ensures !Mentions(front, key, kind) {
        }
      }
    }
  }

  /** Following a report turns the previous top-risk keys into the current ones. */
  lemma FollowReport(prev: seq<RiskSummary>, curr: seq<RiskSummary>, now: int, out: seq<Change>)
    requires Reports(prev, curr, now, out)
    ensures Follow(Index(prev).Keys, out) == Index(curr).Keys
  {
    hide Index, ChangeAt, IsEscalatedRisk, ChangeLess, OncePerKey, KeyOfChange;
    forall key ensures key in Follow(Index(prev).Keys, out) <==> key in Index(curr) {
      FollowMember(Index(prev).Keys, out, key);
      ReportMeans(prev, curr, now, out, key);
    }
  }

  /** A risk as a later reconcile reads it. */
  function StoredRisk(r: RiskSummary): RiskSummary {
    r.(projectedFullAt := StoredTime(r.projectedFullAt))
  }

  /** A change as a reader of the status sees it. */
  function StoredChange(c: Change): Change {
    c.(previousFullAt := StoredTime(c.previousFullAt), currentFullAt := StoredTime(c.currentFullAt), time := Stored(c.time))
  }

  function StoredChanges(changes: seq<Change>): seq<Change> {
    seq(|changes|, i requires 0 <= i < |changes| => StoredChange(changes[i]))
  }

  function StoredRisks(risks: seq<RiskSummary>): seq<RiskSummary> {
    seq(|risks|, i requires 0 <= i < |risks| => StoredRisk(risks[i]))
  }

  lemma StoringKeepsKeys(risks: seq<RiskSummary>)
    ensures Index(StoredRisks(risks)).Keys == Index(risks).Keys
  {
    var kept := StoredRisks(risks);
    forall key ensures key in Index(kept) <==> key in Index(risks) {
      if key in Index(risks) {
        var i :| 0 <= i < |risks| && KeyOf(risks[i].namespace, risks[i].name) == key;
        assert kept[i] in kept;
      }
      if key in Index(kept) {
        var i :| 0 <= i < |kept| && KeyOf(kept[i].namespace, kept[i].name) == key;
        assert risks[i] in risks;
      }
    }
  }

  /** The changes mean the same to a reader when their times are cut to seconds. */
  lemma {:induction false} StoringKeepsMeaning(keys: set<Key>, changes: seq<Change>)
    ensures Follow(keys, StoredChanges(changes)) == Follow(keys, changes)
  {
    if changes != [] {
      var front := changes[..|changes| - 1];
      StoringKeepsMeaning(keys, front);
      assert StoredChanges(changes)[..|changes| - 1] == StoredChanges(front);
    }
  }

  /**
   A reconcile that reached its status update. What it reports is against the risks in the
   status it read, and a failed update leaves that status as it was.
   */
  datatype Step = Active(now: int, topRisks: seq<RiskSummary>, changes: seq<Change>, updated: bool) | Inactive(updated: bool)

  ghost predicate Takes(stored: seq<RiskSummary>, step: Step) {
    step.Active? ==> Reports(stored, step.topRisks, step.now, step.changes)
  }

  function RisksAfter(stored: seq<RiskSummary>, step: Step): seq<RiskSummary> {
    match step
    case Active(_, topRisks, _, updated) => if updated then StoredRisks(topRisks) else stored
    case Inactive(updated) => if updated then [] else stored
  }

  ghost predicate IsRun(stored: seq<RiskSummary>, run: seq<Step>)
    decreases |run|
  {
    run != [] ==> Takes(stored, run[0]) && IsRun(RisksAfter(stored, run[0]), run[1..])
  }

  function RisksAfterRun(stored: seq<RiskSummary>, run: seq<Step>): seq<RiskSummary>
    decreases |run|
  {
    if run == [] then stored else RisksAfterRun(RisksAfter(stored, run[0]), run[1..])
  }

  /** A reader that sees each status update, and starts afresh when the plan goes inactive. */
  function FollowStep(keys: set<Key>, step: Step): set<Key> {
    match step
    case Active(_, _, changes, updated) => if updated then Follow(keys, StoredChanges(changes)) else keys
    case Inactive(updated) => if updated then {} else keys
  }

  function FollowRun(keys: set<Key>, run: seq<Step>): set<Key>
    decreases |run|
  {
    if run == [] then keys else FollowRun(FollowStep(keys, run[0]), run[1..])
  }

  lemma FollowStepAgrees(stored: seq<RiskSummary>, step: Step)
    requires Takes(stored, step)
    ensures FollowStep(Index(stored).Keys, step) == Index(RisksAfter(stored, step)).Keys
  {
    hide Reports, Index, Follow, StoredRisks, StoredChanges;
    NoRisks();
    if step.Active? {
      FollowReport(stored, step.topRisks, step.now, step.changes);
      StoringKeepsMeaning(Index(stored).Keys, step.changes);
      StoringKeepsKeys(step.topRisks);
    }
  }

  /** Over any run, the changes alone tell which PVCs are the top risks. */
  lemma {:induction false} ChangesReplay(stored: seq<RiskSummary>, run: seq<Step>)
    requires IsRun(stored, run)
    ensures FollowRun(Index(stored).Keys, run) == Index(RisksAfterRun(stored, run)).Keys
    decreases |run|
  {
    if run != [] {
      hide Takes, FollowStep, RisksAfter, Index;
      FollowStepAgrees(stored, run[0]);
      ChangesReplay(RisksAfter(stored, run[0]), run[1..]);
    }
  }

  // ---------------------------------------------------------------------------
  // The steps
  // ---------------------------------------------------------------------------

  /** The part of a plan's status that is about risks. */
  datatype Status = Status(topRisks: seq<RiskSummary>, riskChanges: seq<Change>)

  /** The API server's copy of one CapacityPlan's status. */
  class PlanStore {
    var status: Status

    constructor (initial: Status)
      ensures status == initial
    {
      status := initial;
    }

    method UpdateStatus(wanted: Status, fails: bool) returns (ok: bool)
      modifies this
      ensures status == if fails then old(status) else Status(StoredRisks(wanted.topRisks), StoredChanges(wanted.riskChanges))
      ensures ok <==> !fails
    {
      if fails {
        return false;
      }
      status := Status(StoredRisks(wanted.topRisks), StoredChanges(wanted.riskChanges));
      return true;
    }
  }

  /** The risk part of an active reconcile. */
  method RefreshRisks(store: PlanStore, now: int, topRisks: seq<RiskSummary>, updateFails: bool)
    returns (riskChanges: seq<Change>, ok: bool)
    modifies store
    ensures Takes(old(store.status.topRisks), Active(now, topRisks, riskChanges, ok))
    ensures store.status.topRisks == RisksAfter(old(store.status.topRisks), Active(now, topRisks, riskChanges, ok))
    ensures store.status.riskChanges == if ok then StoredChanges(riskChanges) else old(store.status.riskChanges)
    ensures ok <==> !updateFails
  {
    var prevTopRisks := store.status.topRisks;
    riskChanges := DetectRiskChanges(now, prevTopRisks, topRisks);
    ok := store.UpdateStatus(Status(topRisks, riskChanges), updateFails);
  }

  /** The risk part of the reconcile of a plan that is not the active one. */
  method MarkPlanInactive(store: PlanStore, updateFails: bool) returns (ok: bool)
    modifies store
    ensures store.status.topRisks == RisksAfter(old(store.status.topRisks), Inactive(ok))
    ensures store.status.riskChanges == if ok then [] else old(store.status.riskChanges)
    ensures ok <==> !updateFails
  {
    ok := store.UpdateStatus(Status([], []), updateFails);
  }
}
