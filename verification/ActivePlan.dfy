/** Which CapacityPlan is the active one, and when that changes. */
module ActivePlan {

  import opened Options
  import opened Ordering

  /** Plans are cluster-scoped, so the name identifies one. */
  datatype Plan = Plan(name: string, created: int)

  datatype Verdict = Verdict(active: bool, activePlanName: string)

  predicate PlanLess(a: Plan, b: Plan) {
    if a.created != b.created then a.created < b.created else StringLess(a.name, b.name)
  }

  lemma PlanOrder()
    ensures StrictWeak(PlanLess)
    ensures forall a, b :: a != b ==> PlanLess(a, b) || PlanLess(b, a)
  {
    StringOrder();
    forall a, b | a != b ensures PlanLess(a, b) || PlanLess(b, a) {
      assert a.created == b.created ==> a.name != b.name;
    }
  }

  /** Nothing in the list is older, and by name no other is as old. */
  ghost predicate Oldest(plans: seq<Plan>, p: Plan) {
    p in plans && forall q :: q in plans ==> !PlanLess(q, p)
  }

  /** The oldest plan was created first; of those created in the same second it has the first name. */
  lemma OldestMeans(plans: seq<Plan>, p: Plan)
    ensures Oldest(plans, p) <==>
              && p in plans
              && (forall q :: q in plans ==> p.created <= q.created)
              && (forall q :: q in plans && q.created == p.created && q.name != p.name ==> StringLess(p.name, q.name))
  {
    StringOrder();
    if Oldest(plans, p) {
      forall q | q in plans && q.created == p.created && q.name != p.name ensures StringLess(p.name, q.name) {
        assert !PlanLess(q, p);
      }
    }
    hide StringLess;
    assert !StringLess(p.name, p.name);
  }

  method PickActivePlan(plans: seq<Plan>) returns (active: Option<Plan>)
    ensures active.None? <==> plans == []
    ensures active.Some? ==> Oldest(plans, active.value)
  {
    if |plans| == 0 {
      return None;
    }
    PlanOrder();
    var sorted := SortSlice(plans, PlanLess);
    PermutationLength(sorted, plans);
    hide PlanLess;
    forall q | q in plans ensures !PlanLess(q, sorted[0]) {
      assert q in multiset(sorted);
      var k :| 0 <= k < |sorted| && sorted[k] == q;
    }
    assert sorted[0] in multiset(plans);
    return Some(sorted[0]);
  }

  /** A plan that the list does not show is active only when the list shows none. A failed list decides nothing. */
  method IsActivePlan(plans: Option<seq<Plan>>, name: string) returns (r: Option<Verdict>)
    ensures r.None? <==> plans.None?
    ensures plans.Some? && plans.value == [] ==> r == Some(Verdict(true, name))
    ensures plans.Some? ==>
              forall p :: Oldest(plans.value, p) ==> r == Some(Verdict(name == p.name, p.name))
  {
    if plans.None? {
      return None;
    }
    var active := PickActivePlan(plans.value);
    if active.None? {
      return Some(Verdict(true, name));
    }
    forall p | Oldest(plans.value, p) ensures p == active.value {
      OldestUnique(plans.value, plans.value, p, active.value);
    }
    return Some(Verdict(name == active.value.name, active.value.name));
  }

  /** The oldest plan is a function of which plans there are, whatever order the list came in. */
  lemma OldestUnique(plans: seq<Plan>, plans': seq<Plan>, p: Plan, p': Plan)
    requires forall q :: q in plans <==> q in plans'
    requires Oldest(plans, p) && Oldest(plans', p')
    ensures p == p'
  {
    PlanOrder();
    assert p' in plans && p in plans';
  }

  ghost predicate DistinctNames(plans: seq<Plan>) {
    forall i, j :: 0 <= i < j < |plans| ==> plans[i].name != plans[j].name
  }

  lemma {:induction false} OldestExists(plans: seq<Plan>) returns (i: nat)
    requires plans != []
    ensures i < |plans| && Oldest(plans, plans[i])
  {
    PlanOrder();
    hide PlanLess;
    if |plans| == 1 {
      i := 0;
    } else {
      var last := plans[|plans| - 1];
      var k := OldestExists(plans[..|plans| - 1]);
      i := if PlanLess(last, plans[k]) then |plans| - 1 else k;
    }
  }

  /** The plan named is the one isActivePlan accepts. */
  ghost predicate Active(plans: seq<Plan>, name: string) {
    exists p :: Oldest(plans, p) && p.name == name
  }

  /** While there are plans, exactly one of them is active. */
  lemma ExactlyOneActive(plans: seq<Plan>) returns (i: nat)
    requires DistinctNames(plans) && plans != []
    ensures i < |plans| && Active(plans, plans[i].name)
    ensures forall j :: 0 <= j < |plans| && j != i ==> !Active(plans, plans[j].name)
  {
    i := OldestExists(plans);
    hide PlanLess, Oldest;
    forall j | 0 <= j < |plans| && Active(plans, plans[j].name) ensures j == i {
      var p :| Oldest(plans, p) && p.name == plans[j].name;
      OldestUnique(plans, plans, p, plans[i]);
    }
  }

  // ---------------------------------------------------------------------------
  // Plans that come and go
  // ---------------------------------------------------------------------------

  datatype Change = Create(plan: Plan) | Delete(name: string)

  function Without(plans: seq<Plan>, name: string): (r: seq<Plan>)
    ensures forall p :: p in r <==> p in plans && p.name != name
  {
    if plans == [] then []
    else
      var last := plans[|plans| - 1];
      var front := Without(plans[..|plans| - 1], name);
      if last.name == name then front else front + [last]
  }

  function Changed(plans: seq<Plan>, change: Change): seq<Plan> {
    match change
    case Create(plan) => plans + [plan]
    case Delete(name) => Without(plans, name)
  }

  function ChangedAll(plans: seq<Plan>, changes: seq<Change>): seq<Plan>
    decreases |changes|
  {
    if changes == [] then plans else ChangedAll(Changed(plans, changes[0]), changes[1..])
  }

  /** A change unseats the oldest plan exactly when it deletes it or creates one that sorts before it. */
  predicate Unseats(p: Plan, change: Change) {
    match change
    case Create(plan) => PlanLess(plan, p)
    case Delete(name) => name == p.name
  }

  lemma UnseatedExactlyWhen(plans: seq<Plan>, p: Plan, change: Change)
    requires Oldest(plans, p)
    ensures Oldest(Changed(plans, change), p) <==> !Unseats(p, change)
  {
    hide PlanLess;
    var after := Changed(plans, change);
    if change.Create? {
      assert change.plan in after;
    }
  }

  /** Over any run, the active plan stays the active one if and only if no change of the run unseats it. */
  lemma {:induction false} StaysActiveWhileNotUnseated(plans: seq<Plan>, p: Plan, changes: seq<Change>)
    requires Oldest(plans, p)
    ensures (forall i :: 0 <= i <= |changes| ==> Oldest(ChangedAll(plans, changes[..i]), p))
            <==> (forall i :: 0 <= i < |changes| ==> !Unseats(p, changes[i]))
    decreases |changes|
  {
    hide PlanLess, Oldest, Unseats, Changed;
    if changes == [] {
      assert changes[..0] == [];
    } else {
      var next := Changed(plans, changes[0]);
      UnseatedExactlyWhen(plans, p, changes[0]);
      forall i | 1 <= i <= |changes|
        ensures ChangedAll(plans, changes[..i]) == ChangedAll(next, changes[1..][..i - 1])
      {
        assert changes[..i][0] == changes[0] && changes[..i][1..] == changes[1..][..i - 1];
      }
      var stays := forall i :: 0 <= i <= |changes| ==> Oldest(ChangedAll(plans, changes[..i]), p);
      assert ChangedAll(plans, changes[..0]) == plans;
      if !Unseats(p, changes[0]) {
        StaysActiveWhileNotUnseated(next, p, changes[1..]);
        var tail := changes[1..];
        assert forall i :: 0 <= i < |tail| ==> tail[i] == changes[i + 1];
        assert forall i :: 1 <= i < |changes| ==> changes[i] == tail[i - 1];
        if stays {
          forall i | 0 <= i <= |tail| ensures Oldest(ChangedAll(next, tail[..i]), p) {
            assert Oldest(ChangedAll(plans, changes[..i + 1]), p);
          }
        }
      } else {
        assert ChangedAll(next, changes[1..][..0]) == next;
        assert ChangedAll(plans, changes[..1]) == next;
      }
    }
  }

  /** Creation times have whole seconds, so a plan created in the same second can take over by name. */
  lemma SameSecondTakesOver()
    ensures Oldest([Plan("b", 10)], Plan("b", 10))
    ensures Oldest([Plan("b", 10), Plan("a", 10)], Plan("a", 10))
  {
    var a, b := Plan("a", 10), Plan("b", 10);
    assert PlanLess(a, b);
    PlanOrder();
  }
}
