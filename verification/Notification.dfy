/**
 The notification reconciler: cooldown and on-change gating over a status that lives in the
 API server.

 Times are nanoseconds. The API server stores a metav1.Time with whole seconds, so the
 `lastSentTime` a later reconcile reads is the time of sending rounded down to its second.
 */
module Notification {

  import opened Options
  import opened Text
  import opened Times

  const DEFAULT_COOLDOWN := 30 * 60 * SECOND

  datatype Condition = Condition(ready: bool, reason: string)

  datatype Status = Status(
    lastSentTime: Option<int>, lastDigestHash: string, lastSentChannels: seq<string>,
    lastMessage: string, condition: Option<Condition>)

  datatype Spec = Spec(
    planRefName: string, cooldown: int, onChangeOnly: bool, dryRun: bool,
    slackEnabled: bool, emailEnabled: bool)

  /** What the API server says about the notification itself. */
  datatype SelfLookup = Present | Absent | Unreadable

  /** The plan, with the hash in its status and the one its top risks would give. */
  datatype PlanLookup = PlanFound(statusHash: string, computedHash: string) | PlanMissing | PlanError

  /** Everything one reconcile sees of the outside world. */
  datatype Input = Input(
    self: SelfLookup, spec: Spec, plan: PlanLookup, now: int,
    slackError: Option<string>, emailError: Option<string>, updateFails: bool)

  datatype Outcome = Gone | InvalidSpec | PlanNotFound | LookupFailed | NoChange | Cooldown | NoChannels | Sent

  function StoredStatus(s: Status): Status {
    if s.lastSentTime.Some? then s.(lastSentTime := Some(Stored(s.lastSentTime.value))) else s
  }

  function EffectiveCooldown(spec: Spec): int {
    if spec.cooldown <= 0 then DEFAULT_COOLDOWN else spec.cooldown
  }

  function Channels(spec: Spec): seq<string> {
    (if spec.slackEnabled then ["slack"] else []) + (if spec.emailEnabled then ["email"] else [])
  }

  /** The hash a notification stands for; a plan without one in its status gets it computed. */
  function HashOf(plan: PlanLookup): string {
    if !plan.PlanFound? then ""
    else if TrimSpace(plan.statusHash) == "" then plan.computedHash
    else TrimSpace(plan.statusHash)
  }

  /** Which way a reconcile goes, from what is stored and what it sees. */
  function Decide(stored: Status, i: Input): Outcome {
    if i.self.Absent? then Gone
    else if i.self.Unreadable? then LookupFailed
    else if TrimSpace(i.spec.planRefName) == "" then InvalidSpec
    else if i.plan.PlanMissing? then PlanNotFound
    else if i.plan.PlanError? then LookupFailed
    else if i.spec.onChangeOnly && HashOf(i.plan) != "" && HashOf(i.plan) == stored.lastDigestHash then NoChange
    else if stored.lastSentTime.Some? && i.now - stored.lastSentTime.value < EffectiveCooldown(i.spec) then Cooldown
    else if Channels(i.spec) == [] then NoChannels
    else Sent
  }

  function DeliveryErrors(i: Input): seq<string> {
    if i.spec.dryRun then []
    else
      (if i.spec.slackEnabled && i.slackError.Some? then ["slack: " + i.slackError.value] else [])
      + (if i.spec.emailEnabled && i.emailError.Some? then ["email: " + i.emailError.value] else [])
  }

  function Join(parts: seq<string>, separator: string): string {
    if parts == [] then ""
    else if |parts| == 1 then parts[0]
    else parts[0] + separator + Join(parts[1..], separator)
  }

  function SentMessage(i: Input): string {
    if i.spec.dryRun then "dry-run notification emitted"
    else if DeliveryErrors(i) != [] then Join(DeliveryErrors(i), "; ")
    else "Notification sent to " + Join(Channels(i.spec), ",")
  }

  function SentCondition(i: Input): Condition {
    if i.spec.dryRun then Condition(true, "DryRun")
    else if DeliveryErrors(i) != [] then Condition(false, "DeliveryFailed")
    else Condition(true, "Delivered")
  }

  /** The status after the channels have been tried. */
  function Attempted(stored: Status, i: Input): Status {
    if Channels(i.spec) == [] then
      stored.(lastMessage := "Enable at least one channel (slack or email)",
              condition := Some(Condition(false, "NoChannelsConfigured")))
    else Status(Some(i.now), HashOf(i.plan), Channels(i.spec), SentMessage(i), Some(SentCondition(i)))
  }

  /** The status the reconcile wants to store. */
  function Wanted(stored: Status, i: Input): Status {
    match Decide(stored, i)
    case Gone => stored
    case InvalidSpec => stored.(condition := Some(Condition(false, "InvalidSpec")))
    case PlanNotFound => stored.(condition := Some(Condition(false, "PlanNotFound")))
    case LookupFailed => stored
    case NoChange => stored.(condition := Some(Condition(true, "NoChange")))
    case Cooldown => stored.(condition := Some(Condition(true, "Cooldown")))
    case NoChannels => Attempted(stored, i)
    case Sent => Attempted(stored, i)
  }

  function Next(stored: Status, i: Input): Status {
    if i.updateFails || Decide(stored, i) in {LookupFailed, Gone} then stored else StoredStatus(Wanted(stored, i))
  }

  /** The API server's copy of one CapacityPlanNotification's status. */
  class NotificationStore {
    var status: Status

    constructor (initial: Status)
      ensures status == initial
    {
      status := initial;
    }

    method UpdateStatus(wanted: Status, fails: bool) returns (ok: bool)
      modifies this
      ensures status == if fails then old(status) else StoredStatus(wanted)
      ensures ok <==> !fails
    {
      if fails {
        return false;
      }
      status := if wanted.lastSentTime.Some?
        then wanted.(lastSentTime := Some(wanted.lastSentTime.value / SECOND * SECOND)) else wanted;
      return true;
    }
  }

  /** The delivery block of Reconcile: the enabled channels, and what went wrong on them. */
  method Deliver(i: Input) returns (sentChannels: seq<string>, deliveryErrs: seq<string>)
    ensures sentChannels == Channels(i.spec) && deliveryErrs == DeliveryErrors(i)
  {
    sentChannels, deliveryErrs := [], [];
    if i.spec.slackEnabled {
      sentChannels := sentChannels + ["slack"];
      if !i.spec.dryRun && i.slackError.Some? {
        deliveryErrs := deliveryErrs + ["slack: " + i.slackError.value];
      }
    }
    if i.spec.emailEnabled {
      sentChannels := sentChannels + ["email"];
      if !i.spec.dryRun && i.emailError.Some? {
        deliveryErrs := deliveryErrs + ["email: " + i.emailError.value];
      }
    }
  }

  /** The part of Reconcile behind the gates: deliver, and record the attempt. */
  method Notify(store: NotificationStore, i: Input, snapshotHash: string) returns (outcome: Outcome, ok: bool)
    requires snapshotHash == HashOf(i.plan)
    modifies store
    ensures outcome == if Channels(i.spec) == [] then NoChannels else Sent
    ensures store.status == if i.updateFails then old(store.status) else StoredStatus(Attempted(old(store.status), i))
    ensures ok <==> !i.updateFails
  {
    hide Channels, DeliveryErrors, Join, HashOf;
    var notif := store.status;
    var sentChannels, deliveryErrs := Deliver(i);
    if |sentChannels| == 0 {
      notif := notif.(lastMessage := "Enable at least one channel (slack or email)",
                      condition := Some(Condition(false, "NoChannelsConfigured")));
      ok := store.UpdateStatus(notif, i.updateFails);
      return NoChannels, ok;
    }
    notif := notif.(lastSentTime := Some(i.now), lastDigestHash := snapshotHash, lastSentChannels := sentChannels);
    if i.spec.dryRun {
      notif := notif.(lastMessage := "dry-run notification emitted", condition := Some(Condition(true, "DryRun")));
    } else if |deliveryErrs| > 0 {
      notif := notif.(lastMessage := Join(deliveryErrs, "; "), condition := Some(Condition(false, "DeliveryFailed")));
    } else {
      notif := notif.(lastMessage := "Notification sent to " + Join(sentChannels, ","),
                      condition := Some(Condition(true, "Delivered")));
    }
    ok := store.UpdateStatus(notif, i.updateFails);
    return Sent, ok;
  }

  /** CapacityPlanNotificationReconciler.Reconcile on the notification kept in `store`. */
  method Reconcile(store: NotificationStore, i: Input) returns (outcome: Outcome, ok: bool)
    modifies store
    ensures outcome == Decide(old(store.status), i)
    ensures store.status == Next(old(store.status), i)
    ensures ok <==> !(outcome.LookupFailed? || (i.updateFails && outcome !in {Gone, InvalidSpec, PlanNotFound}))
  {
    hide Channels, TrimSpace, Attempted;
    if i.self.Absent? {
      return Gone, true;
    }
    if i.self.Unreadable? {
      return LookupFailed, false;
    }
    var notif := store.status;
    var planName := TrimSpace(i.spec.planRefName);
    if planName == "" {
      notif := notif.(condition := Some(Condition(false, "InvalidSpec")));
      var _ := store.UpdateStatus(notif, i.updateFails);
      return InvalidSpec, true;
    }
    if i.plan.PlanMissing? {
      notif := notif.(condition := Some(Condition(false, "PlanNotFound")));
      var _ := store.UpdateStatus(notif, i.updateFails);
      return PlanNotFound, true;
    }
    if i.plan.PlanError? {
      return LookupFailed, false;
    }
    var snapshotHash := TrimSpace(i.plan.statusHash);
    if snapshotHash == "" {
      snapshotHash := i.plan.computedHash;
    }
    var cooldown := if i.spec.cooldown <= 0 then DEFAULT_COOLDOWN else i.spec.cooldown;
    if i.spec.onChangeOnly && snapshotHash != "" && snapshotHash == notif.lastDigestHash {
      notif := notif.(condition := Some(Condition(true, "NoChange")));
      ok := store.UpdateStatus(notif, i.updateFails);
      return NoChange, ok;
    }
    if notif.lastSentTime.Some? && i.now - notif.lastSentTime.value < cooldown {
      notif := notif.(condition := Some(Condition(true, "Cooldown")));
      ok := store.UpdateStatus(notif, i.updateFails);
      return Cooldown, ok;
    }
    outcome, ok := Notify(store, i, snapshotHash);
  }

  // ---------------------------------------------------------------------------
  // Runs
  // ---------------------------------------------------------------------------

  const NEVER_SENT := Status(None, "", [], "", None)

  function Run(inputs: seq<Input>): Status {
    if inputs == [] then NEVER_SENT
    else Next(Run(inputs[..|inputs| - 1]), inputs[|inputs| - 1])
  }

  /** A notification the status records: the input that sent it. */
  predicate Records(stored: Status, i: Input) {
    Decide(stored, i).Sent? && !i.updateFails
  }

  /** The recorded notifications of a run, oldest first. */
  function Recorded(inputs: seq<Input>): seq<Input> {
    if inputs == [] then []
    else
      var front, last := inputs[..|inputs| - 1], inputs[|inputs| - 1];
      Recorded(front) + if Records(Run(front), last) then [last] else []
  }

  /** The stored sent fields are those of the last recorded notification. */
  ghost predicate ShowsLast(stored: Status, sent: seq<Input>) {
    if sent == [] then stored.lastSentTime.None? && stored.lastDigestHash == ""
    else
      var last := sent[|sent| - 1];
      && last.plan.PlanFound?
      && stored.lastSentTime == Some(Stored(last.now))
      && stored.lastDigestHash == HashOf(last.plan)
      && stored.lastSentChannels == Channels(last.spec)
  }

  /** Whole seconds of a cooldown. */
  function WholeSeconds(cooldown: int): int { cooldown / SECOND * SECOND }

  /** The wait after `earlier` is over for `later`: its own cooldown, or half an hour if it names none. */
  ghost predicate Waited(earlier: Input, later: Input) {
    var since := later.now - earlier.now / 1_000_000_000 * 1_000_000_000;
    && (later.spec.cooldown > 0 ==> since >= later.spec.cooldown)
    && (later.spec.cooldown <= 0 ==> since >= 30 * 60 * 1_000_000_000)
  }

  ghost predicate Spaced(earlier: Input, later: Input) {
    && later.now - Stored(earlier.now) >= EffectiveCooldown(later.spec)
    && later.now - earlier.now > EffectiveCooldown(later.spec) - SECOND
    && Stored(later.now) - Stored(earlier.now) >= WholeSeconds(EffectiveCooldown(later.spec))
  }

  ghost predicate Changed(earlier: Input, later: Input) {
    earlier.plan.PlanFound? && later.plan.PlanFound? &&
    (later.spec.onChangeOnly && HashOf(later.plan) != "" ==>
       HashOf(later.plan) != HashOf(earlier.plan))
  }

  lemma StoredFacts(t: int, u: int)
    ensures Stored(t) <= t < Stored(t) + SECOND
    ensures t <= u ==> Stored(t) <= Stored(u)
    ensures Stored(Stored(t)) == Stored(t)
    ensures Stored(Stored(t) + u) == Stored(t) + Stored(u)
  {
    StoredBound(t);
    StoredBound(u);
    StoredSum(t / SECOND, u);
    StoredSum(t / SECOND, 0);
    StoredMonotone(t, u);
    hide Stored;
    assert Stored(0) == 0 by { StoredBound(0); StoredSum(0, 0); }
  }

  lemma StoredBound(t: int)
    ensures Stored(t) <= t < Stored(t) + SECOND
    ensures Stored(t) == t / SECOND * SECOND
  {
  }

  lemma StoredMonotone(t: int, u: int)
    ensures t <= u ==> Stored(t) <= Stored(u)
  {
    assert t <= u ==> t / SECOND <= u / SECOND;
  }

  lemma StoredSum(seconds: int, u: int)
    ensures Stored(seconds * SECOND + u) == seconds * SECOND + Stored(u)
  {
    assert (seconds * SECOND + u) / SECOND == seconds + u / SECOND;
  }

  lemma SentIsSpaced(stored: Status, sent: seq<Input>, i: Input)
    requires ShowsLast(stored, sent) && sent != [] && Records(stored, i)
    ensures Spaced(sent[|sent| - 1], i) && Changed(sent[|sent| - 1], i) && Waited(sent[|sent| - 1], i)
  {
    var last := sent[|sent| - 1];
    var cooldown := EffectiveCooldown(i.spec);
    assert Stored(last.now) == last.now / 1_000_000_000 * 1_000_000_000;
    StoredFacts(last.now, cooldown);
    StoredFacts(Stored(last.now) + cooldown, i.now);
  }

  lemma SkipsKeepSentFields(stored: Status, i: Input)
    requires !Records(stored, i)
    requires stored.lastSentTime.Some? ==> Stored(stored.lastSentTime.value) == stored.lastSentTime.value
    ensures var next := Next(stored, i);
            && next.lastSentTime == stored.lastSentTime
            && next.lastDigestHash == stored.lastDigestHash
            && next.lastSentChannels == stored.lastSentChannels
  {
  }

  lemma {:induction false} RunShowsLast(inputs: seq<Input>)
    ensures ShowsLast(Run(inputs), Recorded(inputs))
    ensures var t := Run(inputs).lastSentTime; t.Some? ==> Stored(t.value) == t.value
  {
    if inputs != [] {
      var front, last := inputs[..|inputs| - 1], inputs[|inputs| - 1];
      RunShowsLast(front);
      StoredFacts(last.now, 0);
      if !Records(Run(front), last) {
        SkipsKeepSentFields(Run(front), last);
      }
    }
  }

  /**
   Over every run, update failures included: a later recorded notification comes at least its
   own cooldown after the stored time of the one before it, and with on-change gating and a
   non-empty hash never repeats that one's hash.
   */
  lemma {:induction false} RecordedAreSpaced(inputs: seq<Input>, k: nat)
    requires 0 < k < |Recorded(inputs)|
    ensures Spaced(Recorded(inputs)[k - 1], Recorded(inputs)[k])
    ensures Waited(Recorded(inputs)[k - 1], Recorded(inputs)[k])
    ensures Changed(Recorded(inputs)[k - 1], Recorded(inputs)[k])
  {
    var front, last := inputs[..|inputs| - 1], inputs[|inputs| - 1];
    RunShowsLast(front);
    if k < |Recorded(front)| {
      RecordedAreSpaced(front, k);
    } else {
      SentIsSpaced(Run(front), Recorded(front), last);
    }
  }

  /** With one cooldown throughout, k further notifications take k times its whole seconds. */
  lemma {:induction false} RecordedSpread(inputs: seq<Input>, cooldown: int, first: nat, k: nat)
    requires first + k < |Recorded(inputs)|
    requires forall n :: 0 <= n < |Recorded(inputs)| ==> EffectiveCooldown(Recorded(inputs)[n].spec) == cooldown
    ensures Stored(Recorded(inputs)[first + k].now) - Stored(Recorded(inputs)[first].now) >= k * WholeSeconds(cooldown)
  {
    if k > 0 {
      hide Recorded, Stored, WholeSeconds;
      RecordedSpread(inputs, cooldown, first, k - 1);
      RecordedAreSpaced(inputs, first + k);
      var w := WholeSeconds(cooldown);
      assert k * w == (k - 1) * w + w;
    }
  }

  /** So `count` notifications recorded within `span` have count <= span / cooldown + 1. */
  lemma SendsInWindow(inputs: seq<Input>, cooldown: int, first: nat, count: nat, span: nat)
    requires count >= 1 && first + count <= |Recorded(inputs)|
    requires forall n :: 0 <= n < |Recorded(inputs)| ==> EffectiveCooldown(Recorded(inputs)[n].spec) == cooldown
    requires Stored(Recorded(inputs)[first + count - 1].now) - Stored(Recorded(inputs)[first].now) <= span
    ensures (count - 1) * WholeSeconds(cooldown) <= span
  {
    hide WholeSeconds, Stored;
    RecordedSpread(inputs, cooldown, first, count - 1);
  }

  /** Counted on the clock, the window can be up to a second shorter. */
  lemma SendsInClockWindow(inputs: seq<Input>, cooldown: int, first: nat, count: nat, span: nat)
    requires count >= 1 && first + count <= |Recorded(inputs)|
    requires forall n :: 0 <= n < |Recorded(inputs)| ==> EffectiveCooldown(Recorded(inputs)[n].spec) == cooldown
    requires Recorded(inputs)[first + count - 1].now - Recorded(inputs)[first].now <= span
    ensures (count - 1) * WholeSeconds(cooldown) < span + SECOND
  {
    hide WholeSeconds, Recorded;
    RecordedSpread(inputs, cooldown, first, count - 1);
    StoredBound(Recorded(inputs)[first].now);
    StoredBound(Recorded(inputs)[first + count - 1].now);
  }

  /** The n-th reconcile of a run that sends as often as the stored times allow. */
  function Eager(spec: Spec, hash: string, n: nat): Input {
    var cooldown := EffectiveCooldown(spec);
    Input(Present, spec, PlanFound("", hash), n * WholeSeconds(cooldown) + (cooldown - WholeSeconds(cooldown)),
          None, None, false)
  }

  function EagerRun(spec: Spec, hash: string, n: nat): (r: seq<Input>)
    ensures |r| == n
  {
    if n == 0 then [] else EagerRun(spec, hash, n - 1) + [Eager(spec, hash, n - 1)]
  }

  lemma EagerTime(spec: Spec, hash: string, n: nat)
    ensures Stored(Eager(spec, hash, n).now) == n * WholeSeconds(EffectiveCooldown(spec))
  {
    var cooldown := EffectiveCooldown(spec);
    var seconds := cooldown / SECOND;
    StoredSum(n * seconds, cooldown - WholeSeconds(cooldown));
    assert n * WholeSeconds(cooldown) == n * seconds * SECOND;
    assert 0 <= cooldown - WholeSeconds(cooldown) < SECOND;
  }

  lemma EagerIsSent(stored: Status, spec: Spec, hash: string, n: nat)
    requires TrimSpace(spec.planRefName) != "" && spec.slackEnabled && !spec.onChangeOnly
    requires stored.lastSentTime.Some? ==>
               n > 0 && stored.lastSentTime.value == Stored(Eager(spec, hash, n - 1).now)
    ensures Records(stored, Eager(spec, hash, n))
  {
    assert Channels(spec)[0] == "slack";
    hide TrimSpace, Channels;
    if stored.lastSentTime.Some? {
      EagerTime(spec, hash, n - 1);
      var w := WholeSeconds(EffectiveCooldown(spec));
      assert n * w == (n - 1) * w + w;
    }
  }

  lemma {:induction false} EagerRecords(spec: Spec, hash: string, n: nat)
    requires TrimSpace(spec.planRefName) != "" && spec.slackEnabled && !spec.onChangeOnly
    ensures Recorded(EagerRun(spec, hash, n)) == EagerRun(spec, hash, n)
  {
    if n > 0 {
      hide TrimSpace, Records, Eager, Run, ShowsLast;
      var front := EagerRun(spec, hash, n - 1);
      EagerRecords(spec, hash, n - 1);
      RunShowsLast(front);
      LastEager(Run(front), spec, hash, n - 1);
      EagerIsSent(Run(front), spec, hash, n - 1);
      RecordedAppend(front, Eager(spec, hash, n - 1));
    }
  }

  lemma LastEager(stored: Status, spec: Spec, hash: string, n: nat)
    requires ShowsLast(stored, EagerRun(spec, hash, n))
    ensures stored.lastSentTime.Some? ==> n > 0 && stored.lastSentTime.value == Stored(Eager(spec, hash, n - 1).now)
  {
    hide Eager, Stored, Channels;
  }

  lemma RecordedAppend(front: seq<Input>, last: Input)
    ensures Recorded(front + [last]) == Recorded(front) + if Records(Run(front), last) then [last] else []
  {
    hide Records, Run;
    assert (front + [last])[..|front|] == front;
  }

  /**
   No better count can be promised: for every n, some run records n + 1 notifications whose
   stored times span exactly n times the cooldown's whole seconds.
   */
  lemma WindowBoundIsMet(spec: Spec, hash: string, n: nat)
    requires TrimSpace(spec.planRefName) != "" && spec.slackEnabled && !spec.onChangeOnly
    ensures var sent := Recorded(EagerRun(spec, hash, n + 1));
            && |sent| == n + 1
            && Stored(sent[n].now) - Stored(sent[0].now) == n * WholeSeconds(EffectiveCooldown(spec))
  {
    EagerRecords(spec, hash, n + 1);
    EagerAt(spec, hash, n + 1, 0);
    EagerAt(spec, hash, n + 1, n);
    EagerTime(spec, hash, 0);
    EagerTime(spec, hash, n);
    hide Stored, Eager, WholeSeconds;
  }

  lemma {:induction false} EagerAt(spec: Spec, hash: string, n: nat, k: nat)
    requires k < n
    ensures EagerRun(spec, hash, n)[k] == Eager(spec, hash, k)
  {
    hide Eager;
    if k < n - 1 {
      EagerAt(spec, hash, n - 1, k);
    }
  }

  /** Rounding down the stored time can let a notification out before its cooldown is over. */
  lemma RoundingShortensCooldown(spec: Spec, hash: string)
    requires TrimSpace(spec.planRefName) != "" && spec.slackEnabled && !spec.onChangeOnly && spec.cooldown == 2 * SECOND
    ensures var early := Input(Present, spec, PlanFound("", hash), SECOND - 1, None, None, false);
            var late := early.(now := 2 * SECOND);
            && Recorded([early, late]) == [early, late]
            && late.now - early.now < EffectiveCooldown(spec)
  {
    var early := Input(Present, spec, PlanFound("", hash), SECOND - 1, None, None, false);
    var late := early.(now := 2 * SECOND);
    assert [early, late][..1] == [early] && [early][..0] == [];
    assert Channels(spec)[0] == "slack";
    hide TrimSpace;
    assert Records(NEVER_SENT, early);
    assert Run([early]) == Next(NEVER_SENT, early) && Recorded([early]) == [early];
    assert Run([early]).lastSentTime == Some(0);
    assert Records(Run([early]), late);
  }

  lemma RecordedCooldown(stored: Status, i: Input)
    requires Records(stored, i)
    ensures (forall j: Input :: j.now >= i.now && Decide(Next(stored, i), j).Sent? ==>
               j.now - i.now >= EffectiveCooldown(j.spec))
            <==> i.now % SECOND == 0
  {
    hide Channels, Wanted, TrimSpace;
    var next, cooldown := Next(stored, i), EffectiveCooldown(i.spec);
    StoredAfterSending(stored, i);
    StoredFacts(i.now, 0);
    assert Stored(i.now) == i.now - i.now % SECOND;
    if i.now % SECOND != 0 {
      var t := if Stored(i.now) + cooldown < i.now then i.now else Stored(i.now) + cooldown;
      var early := Input(Present, i.spec, AnotherPlan(next), t, None, None, false);
      AnotherPlanIsNews(next);
      assert Decide(next, early).Sent? && t - i.now < cooldown;
    }
  }

  /**
   After any notification that is sent, whatever comes next, the cooldown is kept exactly when
   the sending fell on a whole second and its status update succeeded.
   */
  lemma CooldownKeptExactly(stored: Status, i: Input)
    requires Decide(stored, i).Sent?
    ensures (forall j: Input :: j.now >= i.now && Decide(Next(stored, i), j).Sent? ==>
               j.now - i.now >= EffectiveCooldown(j.spec))
            <==> !i.updateFails && i.now % SECOND == 0
  {
    if i.updateFails {
      hide Decide;
      assert Next(stored, i) == stored;
      assert i.now - i.now < EffectiveCooldown(i.spec);
    } else {
      hide Decide, Next;
      RecordedCooldown(stored, i);
    }
  }

  /** A plan whose hash is not the stored one. */
  function AnotherPlan(stored: Status): PlanLookup { PlanFound("", stored.lastDigestHash + "x") }

  lemma AnotherPlanIsNews(stored: Status)
    ensures AnotherPlan(stored).PlanFound? && HashOf(AnotherPlan(stored)) != stored.lastDigestHash
  {
    assert |HashOf(AnotherPlan(stored))| == |stored.lastDigestHash| + 1;
  }

  lemma StoredAfterSending(stored: Status, i: Input)
    requires Records(stored, i)
    ensures Next(stored, i).lastSentTime == Some(Stored(i.now))
  {
    hide Stored, TrimSpace;
  }

  /** A notification whose status update fails goes out again. */
  lemma UnrecordedIsRepeated(stored: Status, i: Input, again: Input)
    requires Decide(stored, i).Sent? && i.updateFails
    requires again.self == i.self && again.spec == i.spec && again.plan == i.plan && again.now >= i.now
    ensures Decide(Next(stored, i), again).Sent?
  {
    hide TrimSpace;
  }

  // ---------------------------------------------------------------------------
  // Failed deliveries
  // ---------------------------------------------------------------------------

  /** The same reconcile, with what the channels answered left open. */
  predicate SameAttempt(i: Input, j: Input) {
    j == i.(slackError := j.slackError, emailError := j.emailError)
  }

  predicate SameSentFields(s: Status, t: Status) {
    s.lastSentTime == t.lastSentTime && s.lastDigestHash == t.lastDigestHash && s.lastSentChannels == t.lastSentChannels
  }

  lemma AttemptsDecideAlike(s: Status, t: Status, i: Input, j: Input)
    requires SameSentFields(s, t) && SameAttempt(i, j)
    ensures Decide(s, i) == Decide(t, j)
  {
    hide HashOf, TrimSpace, Channels, EffectiveCooldown;
  }

  lemma AttemptDecides(s: Status, t: Status, i: Input, j: Input)
    requires SameSentFields(s, t) && SameAttempt(i, j)
    ensures Records(s, i) <==> Records(t, j)
    ensures SameSentFields(Next(s, i), Next(t, j))
  {
    AttemptsDecideAlike(s, t, i, j);
    hide Decide, HashOf, Channels, SentMessage, SentCondition, Stored;
  }

  ghost predicate SameAttempts(inputs: seq<Input>, inputs': seq<Input>) {
    |inputs| == |inputs'| && forall k :: 0 <= k < |inputs| ==> SameAttempt(inputs[k], inputs'[k])
  }

  lemma SameAttemptsFront(inputs: seq<Input>, inputs': seq<Input>)
    requires SameAttempts(inputs, inputs') && inputs != []
    ensures SameAttempts(inputs[..|inputs| - 1], inputs'[..|inputs'| - 1])
    ensures SameAttempt(inputs[|inputs| - 1], inputs'[|inputs'| - 1])
  {
    hide SameAttempt;
  }

  lemma SameAttemptsAppend(sent: seq<Input>, sent': seq<Input>, i: Input, j: Input)
    requires SameAttempts(sent, sent') && SameAttempt(i, j)
    ensures SameAttempts(sent + [i], sent' + [j])
  {
    hide SameAttempt;
  }

  lemma StartsAlike()
    ensures SameSentFields(NEVER_SENT, NEVER_SENT) && SameAttempts([], [])
  {
  }

  /**
   Over every run, what the channels answered makes no difference to anything sent later: with
   other answers the same reconciles send, and the stored sent fields are the same.
   */
  lemma {:induction false} DeliveryIsForgotten(inputs: seq<Input>, inputs': seq<Input>)
    requires SameAttempts(inputs, inputs')
    ensures SameSentFields(Run(inputs), Run(inputs'))
    ensures SameAttempts(Recorded(inputs), Recorded(inputs'))
  {
    StartsAlike();
    if inputs != [] {
      SameAttemptsFront(inputs, inputs');
      var front, front' := inputs[..|inputs| - 1], inputs'[..|inputs'| - 1];
      var i, j := inputs[|inputs| - 1], inputs'[|inputs| - 1];
      assert |inputs| == |inputs'|;
      hide Next, Records, SameAttempt, SameAttempts, SameSentFields;
      DeliveryIsForgotten(front, front');
      AttemptDecides(Run(front), Run(front'), i, j);
      SameAttemptsAppend(Recorded(front), Recorded(front'), i, j);
      assert Recorded(front) + [] == Recorded(front) && Recorded(front') + [] == Recorded(front');
    }
  }

  /**
   After a notification that some channel could not deliver, the same risks are tried again
   exactly when on-change gating is off (or there is no hash) and the cooldown is over.
   */
  lemma UndeliveredIsNotRetried(inputs: seq<Input>, j: Input)
    requires Recorded(inputs) != []
    requires var last := Recorded(inputs)[|Recorded(inputs)| - 1];
             DeliveryErrors(last) != [] && j.plan.PlanFound? && HashOf(j.plan) == HashOf(last.plan)
    ensures var last := Recorded(inputs)[|Recorded(inputs)| - 1];
            Records(Run(inputs), j) <==>
              && j.self.Present? && TrimSpace(j.spec.planRefName) != "" && Channels(j.spec) != [] && !j.updateFails
              && !(j.spec.onChangeOnly && HashOf(j.plan) != "")
              && j.now - Stored(last.now) >= EffectiveCooldown(j.spec)
  {
    RunShowsLast(inputs);
    var last := Recorded(inputs)[|Recorded(inputs)| - 1];
    hide Run, Recorded, DeliveryErrors;
    GateAfter(Run(inputs), last, j);
  }

  lemma GateAfter(stored: Status, last: Input, j: Input)
    requires stored.lastSentTime == Some(Stored(last.now)) && stored.lastDigestHash == HashOf(last.plan)
    requires j.plan.PlanFound? && HashOf(j.plan) == HashOf(last.plan)
    ensures Records(stored, j) <==>
              && j.self.Present? && TrimSpace(j.spec.planRefName) != "" && Channels(j.spec) != [] && !j.updateFails
              && !(j.spec.onChangeOnly && HashOf(j.plan) != "")
              && j.now - Stored(last.now) >= EffectiveCooldown(j.spec)
  {
    hide HashOf, TrimSpace, Channels, Stored, EffectiveCooldown;
  }

  /** And the first reconcile that skips it reports Ready again: the failure no longer shows. */
  lemma FailureIsMasked(inputs: seq<Input>, i: Input, j: Input)
    requires Records(Run(inputs), i) && DeliveryErrors(i) != []
    requires Decide(Run(inputs + [i]), j) in {NoChange, Cooldown} && !j.updateFails
    ensures Run(inputs + [i]).condition == Some(Condition(false, "DeliveryFailed"))
    ensures Run(inputs + [i, j]).condition.Some? && Run(inputs + [i, j]).condition.value.ready
  {
    hide TrimSpace, Channels, Stored, SentMessage;
    assert (inputs + [i])[..|inputs|] == inputs;
    assert inputs + [i, j] == inputs + [i] + [j];
    assert (inputs + [i] + [j])[..|inputs| + 1] == inputs + [i];
  }
}
