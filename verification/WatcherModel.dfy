/**
 What the PVC watcher does, as a function from one state to the next, and what every run of
 it keeps. `Watcher.PVCWatcher` is the imperative watcher that is proved to do exactly this.

 The API server and the metrics backend appear as the outcomes they return.
 */
module WatcherModel {

  import opened Growth
  import opened Keys
  import opened Options
  import opened RingBuffers

  datatype UID = UID(text: string)

  const DEFAULT_RETENTION := 720

  datatype PVCView = PVCView(lastUID: UID, samples: seq<Sample>, lastCapacityBytes: int)

  datatype WatcherView = WatcherView(retention: nat, pvcs: map<Key, PVCView>)

  datatype Usage = Usage(usedBytes: int, capacityBytes: int)

  /** One call on the watcher, with the answers of the outside world. */
  datatype Event =
    | LookupFailed(key: Key)
    | Deleted(key: Key)
    | Observed(key: Key, uid: UID, requested: Option<int>, usage: Option<Usage>, now: int)
    | Backfilled(key: Key, uid: UID, points: Option<seq<Sample>>)
    | Configured(requestedRetention: int)

  /** What the API server says about a PVC. */
  datatype Lookup = Failed | NotFound | Found(uid: UID, requested: Option<int>)

  function ReconcileEvent(key: Key, pvc: Lookup, usage: Option<Usage>, now: int): Event {
    match pvc
    case Failed => LookupFailed(key)
    case NotFound => Deleted(key)
    case Found(uid, requested) => Observed(key, uid, requested, usage, now)
  }

  function EffectiveRetention(requested: int): nat {
    if requested < 1 then DEFAULT_RETENTION else requested
  }

  function Ensure(w: WatcherView, key: Key, uid: UID): PVCView {
    if key !in w.pvcs then PVCView(uid, [], 0)
    else if w.pvcs[key].lastUID != uid then w.pvcs[key].(lastUID := uid, samples := [])
    else w.pvcs[key]
  }

  function PushAll(samples: seq<Sample>, points: seq<Sample>, retention: nat): (r: seq<Sample>)
    decreases |points|
  {
    if points == [] then samples
    else LastN(PushAll(samples, points[..|points| - 1], retention) + [points[|points| - 1]], retention)
  }

  /** The capacity Prometheus reports, or else the one the PVC asks for. */
  function KnownCapacity(usage: Usage, requested: Option<int>): int {
    if usage.capacityBytes == 0 && requested.Some? then requested.value else usage.capacityBytes
  }

  function Resize(pvcs: map<Key, PVCView>, retention: nat): map<Key, PVCView> {
    map key | key in pvcs :: pvcs[key].(samples := LastN(pvcs[key].samples, retention))
  }

  function Step(w: WatcherView, e: Event): WatcherView {
    match e
    case LookupFailed(_) => w
    case Deleted(key) => w.(pvcs := w.pvcs - {key})
    case Observed(key, uid, requested, usage, now) =>
      var pvc := Ensure(w, key, uid);
      var observed :=
        match usage
        case None => pvc
        case Some(u) => PVCView(uid, LastN(pvc.samples + [Sample(now, u.usedBytes)], w.retention),
                                KnownCapacity(u, requested));
      w.(pvcs := w.pvcs[key := observed])
    case Backfilled(key, uid, points) =>
      var pvc := Ensure(w, key, uid);
      var filled :=
        match points
        case None => pvc
        case Some(p) => pvc.(samples := PushAll(pvc.samples, p, w.retention));
      w.(pvcs := w.pvcs[key := filled])
    case Configured(requested) =>
      var retention := EffectiveRetention(requested);
      if retention == w.retention then w
      else WatcherView(retention, Resize(w.pvcs, retention))
  }

  function Initial(capacity: int): WatcherView {
    WatcherView(EffectiveRetention(capacity), map[])
  }

  function Run(w: WatcherView, events: seq<Event>): WatcherView {
    if events == [] then w else Step(Run(w, events[..|events| - 1]), events[|events| - 1])
  }

  // ---------------------------------------------------------------------------
  // The history a PVC's samples have to agree with
  // ---------------------------------------------------------------------------

  /** A PVC's current incarnation: its UID and every sample ever pushed under it. */
  datatype Incarnation = Incarnation(uid: UID, pushed: seq<Sample>)

  function Extend(h: Option<Incarnation>, uid: UID, more: seq<Sample>): Option<Incarnation> {
    if h.Some? && h.value.uid == uid then Some(Incarnation(uid, h.value.pushed + more))
    else Some(Incarnation(uid, more))
  }

  function Recorded(usage: Option<Usage>, now: int): seq<Sample> {
    if usage.Some? then [Sample(now, usage.value.usedBytes)] else []
  }

  function HistoryStep(h: Option<Incarnation>, e: Event, key: Key): Option<Incarnation> {
    match e
    case Deleted(k) => if k == key then None else h
    case Observed(k, uid, _, usage, now) => if k != key then h else Extend(h, uid, Recorded(usage, now))
    case Backfilled(k, uid, points) =>
      if k != key then h else Extend(h, uid, if points.Some? then points.value else [])
    case _ => h
  }

  function History(events: seq<Event>, key: Key): Option<Incarnation> {
    if events == [] then None
    else HistoryStep(History(events[..|events| - 1], key), events[|events| - 1], key)
  }

  function LeastStep(least: nat, e: Event): nat {
    if e.Configured? then Min(least, EffectiveRetention(e.requestedRetention)) else least
  }

  /** The smallest retention in force at any time of the run. */
  function SmallestRetention(start: nat, events: seq<Event>): nat {
    if events == [] then start
    else LeastStep(SmallestRetention(start, events[..|events| - 1]), events[|events| - 1])
  }

  ghost predicate IsSuffix<T>(s: seq<T>, whole: seq<T>) {
    |s| <= |whole| && s == whole[|whole| - |s|..]
  }

  function Min(a: nat, b: nat): nat { if a < b then a else b }

  /** `samples` is the end of `pushed`: no more than `retention`, no fewer than `least` allows. */
  ghost predicate Retained(samples: seq<Sample>, pushed: seq<Sample>, least: nat, retention: nat) {
    IsSuffix(samples, pushed) && Min(|pushed|, least) <= |samples| <= retention
  }

  ghost predicate Agrees(w: WatcherView, h: Option<Incarnation>, key: Key, least: nat) {
    && (key in w.pvcs <==> h.Some?)
    && (h.Some? ==>
          && w.pvcs[key].lastUID == h.value.uid
          && Retained(w.pvcs[key].samples, h.value.pushed, least, w.retention))
  }

  lemma PushOne(samples: seq<Sample>, s: Sample, retention: nat)
    ensures PushAll(samples, [s], retention) == LastN(samples + [s], retention)
  {
    assert [s][..0] == [];
    assert PushAll(samples, [s][..0], retention) == samples;
  }

  lemma RetainedPush(samples: seq<Sample>, pushed: seq<Sample>, least: nat, retention: nat, s: Sample)
    requires Retained(samples, pushed, least, retention)
    requires least <= retention
    ensures Retained(LastN(samples + [s], retention), pushed + [s], least, retention)
  {
    var after, whole := LastN(samples + [s], retention), pushed + [s];
    assert samples + [s] == whole[|whole| - |samples| - 1..];
    assert after == whole[|whole| - |after|..];
  }

  lemma {:induction false} RetainedPushAll(
    samples: seq<Sample>, pushed: seq<Sample>, least: nat, retention: nat, points: seq<Sample>)
    requires Retained(samples, pushed, least, retention)
    requires least <= retention
    ensures Retained(PushAll(samples, points, retention), pushed + points, least, retention)
    decreases |points|
  {
    hide Retained, LastN;
    if points == [] {
      assert pushed + points == pushed;
    } else {
      var front, last := points[..|points| - 1], points[|points| - 1];
      RetainedPushAll(samples, pushed, least, retention, front);
      RetainedPush(PushAll(samples, front, retention), pushed + front, least, retention, last);
      assert pushed + points == pushed + front + [last];
    }
  }

  lemma RetainedResize(samples: seq<Sample>, pushed: seq<Sample>, least: nat, retention: nat, resized: nat)
    requires Retained(samples, pushed, least, retention)
    ensures Retained(LastN(samples, resized), pushed, Min(least, resized), resized)
  {
    var after := LastN(samples, resized);
    assert after == pushed[|pushed| - |after|..];
  }

  lemma EnsureRetained(w: WatcherView, h: Option<Incarnation>, key: Key, least: nat, uid: UID)
    requires Agrees(w, h, key, least)
    ensures var base := if h.Some? && h.value.uid == uid then h.value.pushed else [];
            && Ensure(w, key, uid).lastUID == uid
            && Retained(Ensure(w, key, uid).samples, base, least, w.retention)
  {
  }

  /** Ensuring the state for a UID and pushing under it follows the incarnation's history. */
  lemma EnsureAndPush(w: WatcherView, h: Option<Incarnation>, key: Key, least: nat, uid: UID, more: seq<Sample>)
    requires Agrees(w, h, key, least) && least <= w.retention
    ensures var pvc, extended := Ensure(w, key, uid), Extend(h, uid, more);
            && pvc.lastUID == uid && extended.Some? && extended.value.uid == uid
            && Retained(PushAll(pvc.samples, more, w.retention), extended.value.pushed, least, w.retention)
  {
    hide LastN, PushAll;
    var base := if h.Some? && h.value.uid == uid then h.value.pushed else [];
    EnsureRetained(w, h, key, least, uid);
    hide Ensure, Retained;
    RetainedPushAll(Ensure(w, key, uid).samples, base, least, w.retention, more);
    assert [] + more == more;
  }

  lemma StepKeepsAgreement(w: WatcherView, h: Option<Incarnation>, key: Key, least: nat, e: Event)
    requires Agrees(w, h, key, least) && 1 <= least <= w.retention
    ensures Agrees(Step(w, e), HistoryStep(h, e, key), key, LeastStep(least, e))
    ensures 1 <= LeastStep(least, e) <= Step(w, e).retention
  {
    hide Retained, LastN, PushAll;
    match e
    case Observed(k, uid, _, usage, now) =>
      if k == key {
        hide Extend;
        EnsureAndPush(w, h, key, least, uid, Recorded(usage, now));
        PushNone(Ensure(w, key, uid).samples, w.retention);
        if usage.Some? {
          PushOne(Ensure(w, key, uid).samples, Sample(now, usage.value.usedBytes), w.retention);
        }
      }
    case Backfilled(k, uid, points) =>
      if k == key {
        hide Extend;
        EnsureAndPush(w, h, key, least, uid, if points.Some? then points.value else []);
        PushNone(Ensure(w, key, uid).samples, w.retention);
      }
    case Configured(requested) =>
      if h.Some? {
        ResizeKeepsAgreement(w.pvcs[key].samples, h.value.pushed, least, w.retention, EffectiveRetention(requested));
      }
    case _ =>
  }

  lemma PushNone(samples: seq<Sample>, retention: nat)
    ensures PushAll(samples, [], retention) == samples
  {
  }

  lemma ResizeKeepsAgreement(samples: seq<Sample>, pushed: seq<Sample>, least: nat, retention: nat, resized: nat)
    requires Retained(samples, pushed, least, retention)
    ensures Retained(LastN(samples, resized), pushed, Min(least, resized), resized)
    ensures resized == retention ==> Retained(samples, pushed, Min(least, resized), resized)
  {
    RetainedResize(samples, pushed, least, retention, resized);
  }

  /**
   Over every run from start-up, for every key: the watcher tracks the PVC exactly while it
   exists, under its current UID; its snapshot is the end of what was pushed under that UID;
   it never exceeds the current retention, and never drops below what the smallest retention
   of the run allows.
   */
  lemma {:induction false} SnapshotsAgreeWithHistory(capacity: int, events: seq<Event>, key: Key)
    ensures var start := Initial(capacity);
            var least := SmallestRetention(start.retention, events);
            && 1 <= least <= Run(start, events).retention
            && Agrees(Run(start, events), History(events, key), key, least)
  {
    if events != [] {
      hide Agrees, Step, HistoryStep, LeastStep;
      var start, front, last := Initial(capacity), events[..|events| - 1], events[|events| - 1];
      SnapshotsAgreeWithHistory(capacity, front, key);
      StepKeepsAgreement(Run(start, front), History(front, key), key, SmallestRetention(start.retention, front), last);
    }
  }

  /** While the retention never shrinks below n and ends at n, a snapshot is exactly the last n samples. */
  lemma ConstantRetention(capacity: int, events: seq<Event>, key: Key)
    requires var start := Initial(capacity);
             SmallestRetention(start.retention, events) == Run(start, events).retention
    requires History(events, key).Some?
    ensures var w, pushed := Run(Initial(capacity), events), History(events, key).value.pushed;
            && key in w.pvcs
            && w.pvcs[key].samples == LastN(pushed, w.retention)
            && |w.pvcs[key].samples| == Min(|pushed|, w.retention)
  {
    SnapshotsAgreeWithHistory(capacity, events, key);
  }

  // ---------------------------------------------------------------------------
  // Where the capacity comes from
  // ---------------------------------------------------------------------------

  /** A metrics query for the key succeeded. */
  predicate Sights(e: Event, key: Key) { e.Observed? && e.key == key && e.usage.Some? }

  /** The key's state was made sure of, for the UID the event carries. */
  predicate Touches(e: Event, key: Key) { (e.Observed? || e.Backfilled?) && e.key == key }

  /** A capacity, and the UID of the PVC it was reported for. */
  datatype Sighting = Sighting(uid: UID, capacityBytes: int)

  function SightingStep(seen: Option<Sighting>, e: Event, key: Key): Option<Sighting> {
    if Sights(e, key) then Some(Sighting(e.uid, KnownCapacity(e.usage.value, e.requested)))
    else if e == Deleted(key) then None
    else seen
  }

  /** The last successful query for the key since it was last deleted. */
  function LastSighting(events: seq<Event>, key: Key): Option<Sighting> {
    if events == [] then None
    else SightingStep(LastSighting(events[..|events| - 1], key), events[|events| - 1], key)
  }

  ghost predicate IsLastSighting(events: seq<Event>, key: Key, j: int) {
    && 0 <= j < |events| && Sights(events[j], key)
    && forall k :: j < k < |events| ==> !Sights(events[k], key) && events[k] != Deleted(key)
  }

  ghost predicate IsLastTouch(events: seq<Event>, key: Key, j: int) {
    && 0 <= j < |events| && Touches(events[j], key)
    && forall k :: j < k < |events| ==> !Touches(events[k], key) && events[k] != Deleted(key)
  }

  /** The last successful query was for another PVC of that name than the last reconcile. */
  ghost predicate Inherits(events: seq<Event>, key: Key) {
    exists j, k :: IsLastSighting(events, key, j) && IsLastTouch(events, key, k) && events[j].uid != events[k].uid
  }

  lemma {:induction false} SightingIsLast(events: seq<Event>, key: Key)
    ensures LastSighting(events, key).None? ==> forall j :: !IsLastSighting(events, key, j)
    ensures LastSighting(events, key).Some? ==>
              exists j :: IsLastSighting(events, key, j)
                          && LastSighting(events, key).value
                             == Sighting(events[j].uid, KnownCapacity(events[j].usage.value, events[j].requested))
  {
    if events != [] {
      hide KnownCapacity;
      var n := |events| - 1;
      var front, last := events[..n], events[n];
      SightingIsLast(front, key);
      if Sights(last, key) {
        assert IsLastSighting(events, key, n);
      } else if last != Deleted(key) {
        forall j ensures IsLastSighting(events, key, j) <==> IsLastSighting(front, key, j) {
        }
      }
    }
  }

  lemma {:induction false} TouchIsHistory(events: seq<Event>, key: Key)
    ensures History(events, key).None? ==> forall j :: !IsLastTouch(events, key, j)
    ensures History(events, key).Some? ==>
              exists j :: IsLastTouch(events, key, j) && events[j].uid == History(events, key).value.uid
  {
    if events != [] {
      var n := |events| - 1;
      var front, last := events[..n], events[n];
      TouchIsHistory(front, key);
      if Touches(last, key) {
        assert IsLastTouch(events, key, n);
      } else if last != Deleted(key) {
        forall j ensures IsLastTouch(events, key, j) <==> IsLastTouch(front, key, j) {
        }
      }
    }
  }

  lemma StepKeepsCapacity(w: WatcherView, seen: Option<Sighting>, key: Key, e: Event)
    requires key in w.pvcs ==> w.pvcs[key].lastCapacityBytes == if seen.Some? then seen.value.capacityBytes else 0
    requires key !in w.pvcs ==> seen.None?
    ensures var w', seen' := Step(w, e), SightingStep(seen, e, key);
            && (key in w'.pvcs ==>
                  w'.pvcs[key].lastCapacityBytes == if seen'.Some? then seen'.value.capacityBytes else 0)
            && (key !in w'.pvcs ==> seen'.None?)
  {
    hide LastN, PushAll, KnownCapacity;
  }

  lemma {:induction false} CapacityIsSighted(capacity: int, events: seq<Event>, key: Key)
    ensures var w, seen := Run(Initial(capacity), events), LastSighting(events, key);
            && (key in w.pvcs ==>
                  w.pvcs[key].lastCapacityBytes == if seen.Some? then seen.value.capacityBytes else 0)
            && (key !in w.pvcs ==> seen.None?)
  {
    if events != [] {
      hide Step, SightingStep;
      var front, last := events[..|events| - 1], events[|events| - 1];
      CapacityIsSighted(capacity, front, key);
      StepKeepsCapacity(Run(Initial(capacity), front), LastSighting(front, key), key, last);
    }
  }

  lemma InheritsBySighting(events: seq<Event>, key: Key)
    ensures Inherits(events, key) <==>
              LastSighting(events, key).Some? && History(events, key).Some?
              && LastSighting(events, key).value.uid != History(events, key).value.uid
  {
    hide LastSighting, History;
    SightingIsLast(events, key);
    TouchIsHistory(events, key);
    LastsAreOne(events, key);
    if LastSighting(events, key).Some? && History(events, key).Some? {
      var j :| IsLastSighting(events, key, j) && LastSighting(events, key).value.uid == events[j].uid;
      var k :| IsLastTouch(events, key, k) && History(events, key).value.uid == events[k].uid;
    }
  }

  lemma LastsAreOne(events: seq<Event>, key: Key)
    ensures forall j, k :: IsLastSighting(events, key, j) && IsLastSighting(events, key, k) ==> j == k
    ensures forall j, k :: IsLastTouch(events, key, j) && IsLastTouch(events, key, k) ==> j == k
  {
  }

  /**
   Over every run, a tracked PVC shows the capacity of the last successful query for its name
   since the name was last deleted, or 0 when there was none. It is another PVC's capacity
   exactly when that query was for another UID than the PVC now has.
   */
  lemma CapacitySurvivesRecreation(capacity: int, events: seq<Event>, key: Key)
    requires key in Run(Initial(capacity), events).pvcs
    ensures var pvc, seen := Run(Initial(capacity), events).pvcs[key], LastSighting(events, key);
            && pvc.lastCapacityBytes == (if seen.Some? then seen.value.capacityBytes else 0)
            && (Inherits(events, key) <==> seen.Some? && seen.value.uid != pvc.lastUID)
  {
    hide Run, History, LastSighting;
    CapacityIsSighted(capacity, events, key);
    SnapshotsAgreeWithHistory(capacity, events, key);
    InheritsBySighting(events, key);
  }

  /** The capacity a successful query tells: what Prometheus reports, or the request where it reports none. */
  ghost predicate Tells(e: Event, capacityBytes: int)
    requires e.Observed? && e.usage.Some?
  {
    if e.usage.value.capacityBytes != 0 then capacityBytes == e.usage.value.capacityBytes
    else if e.requested.Some? then capacityBytes == e.requested.value
    else capacityBytes == 0
  }

  /** Over every run: the capacity of a tracked PVC is told by the last successful query, and 0 before the first. */
  lemma CapacityIsTold(capacity: int, events: seq<Event>, key: Key)
    requires key in Run(Initial(capacity), events).pvcs
    ensures
      var shown := Run(Initial(capacity), events).pvcs[key].lastCapacityBytes;
      && (forall j :: IsLastSighting(events, key, j) ==> Tells(events[j], shown))
      && ((forall j :: !IsLastSighting(events, key, j)) ==> shown == 0)
  {
    CapacityIsSighted(capacity, events, key);
    SightingIsLast(events, key);
    LastsAreOne(events, key);
    hide Run, LastSighting, IsLastSighting;
  }

  /** The retention that a Configure call, or the start, asks for; 720 samples where it asks for none. */
  ghost predicate AsksFor(requested: int, retention: nat) {
    retention == if requested >= 1 then requested else 720
  }

  /** Over every run, the retention is the one the last Configure asked for. */
  lemma {:induction false} RetentionInForce(capacity: int, events: seq<Event>)
    ensures
      var retention := Run(Initial(capacity), events).retention;
      && ((forall j :: 0 <= j < |events| ==> !events[j].Configured?) ==> AsksFor(capacity, retention))
      && (forall j :: 0 <= j < |events| && events[j].Configured?
                      && (forall k :: j < k < |events| ==> !events[k].Configured?) ==>
            AsksFor(events[j].requestedRetention, retention))
  {
    if events != [] {
      var n := |events| - 1;
      var front, last := events[..n], events[n];
      RetentionInForce(capacity, front);
      StepRetention(Run(Initial(capacity), front), last);
      hide AsksFor, Step;
      forall j | 0 <= j < |events| && events[j].Configured? && (forall k :: j < k < |events| ==> !events[k].Configured?)
        ensures AsksFor(events[j].requestedRetention, Run(Initial(capacity), events).retention)
      {
        if j < n {
          assert !events[n].Configured?;
          assert front[j] == events[j];
        }
      }
    }
  }

  lemma StepRetention(w: WatcherView, e: Event)
    ensures e.Configured? ==> AsksFor(e.requestedRetention, Step(w, e).retention)
    ensures !e.Configured? ==> Step(w, e).retention == w.retention
  {
    hide LastN, PushAll, KnownCapacity;
  }

  /** It does happen: a PVC recreated before its first successful query shows its predecessor's capacity. */
  lemma SuccessorInherits(capacity: int, key: Key, a: UID, b: UID, usage: Usage, now: int)
    requires a != b
    ensures var events := [Observed(key, a, None, Some(usage), now), Observed(key, b, None, None, now)];
            var w := Run(Initial(capacity), events);
            && Inherits(events, key) && key in w.pvcs
            && w.pvcs[key].lastUID == b && w.pvcs[key].lastCapacityBytes == usage.capacityBytes
  {
    var first, second := Observed(key, a, None, Some(usage), now), Observed(key, b, None, None, now);
    var events := [first, second];
    assert events[..1] == [first] && [first][..0] == [];
    InheritsBySighting(events, key);
    hide Inherits, LastN;
    assert LastSighting([first], key) == Some(Sighting(a, usage.capacityBytes));
    assert History([first], key) == Some(Incarnation(a, [Sample(now, usage.usedBytes)]));
    assert Run(Initial(capacity), [first]) == Step(Initial(capacity), first);
  }

  /** It stays so until a query succeeds, the name is deleted, or the PVC it was reported for is seen again. */
  lemma InheritanceEnds(events: seq<Event>, key: Key, e: Event)
    requires Inherits(events, key)
    ensures Inherits(events + [e], key) <==>
              && !Sights(e, key) && e != Deleted(key)
              && (Touches(e, key) ==> LastSighting(events, key).Some? && LastSighting(events, key).value.uid != e.uid)
  {
    InheritsBySighting(events, key);
    InheritsBySighting(events + [e], key);
    hide Inherits, KnownCapacity;
    assert (events + [e])[..|events|] == events;
    assert LastSighting(events + [e], key) == SightingStep(LastSighting(events, key), e, key);
    assert History(events + [e], key) == HistoryStep(History(events, key), e, key);
  }
}
