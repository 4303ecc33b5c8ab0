/**
 The FastAPI circuit breaker: consecutive failures, a degraded mode with a cooldown, and a
 health probe that has to succeed before traffic resumes.

 Times are nanoseconds; the zero time.Time is `None`. The outcome of each HTTP exchange is a
 parameter.
 */
module Breaker {

  import opened Options
  import opened Times

  const DEFAULT_FAILURES := 3
  const DEFAULT_COOLDOWN := 60 * SECOND

  datatype Config = Config(threshold: nat, cooldown: int) {
    ghost predicate Valid() { threshold >= 1 && cooldown > 0 }
  }

  /** What the mutex protects. */
  datatype Health = Health(consecutiveFails: nat, degradedUntil: Option<int>)

  const HEALTHY := Health(0, None)

  function AfterFailure(c: Config, h: Health, now: int): Health {
    var fails := h.consecutiveFails + 1;
    Health(fails, if fails >= c.threshold then Some(now + c.cooldown) else h.degradedUntil)
  }

  /** now.Before(degradedUntil); nothing is before the zero time. */
  predicate Before(now: int, until: Option<int>) {
    until.Some? && now < until.value
  }

  datatype PostOutcome = Aborted | PostFails(at: int) | PostSucceeds

  /** One GenerateInsight: when it looks, what a probe would say, how a POST would end. */
  datatype Call = Call(checkedAt: int, probeHealthy: bool, post: PostOutcome)

  /** What goes over the wire and counts. */
  datatype Event =
    | Probe(at: int, healthy: bool)
    | PostFailed(at: int)
    | PostSucceeded

  predicate IsClear(e: Event) {
    match e
    case Probe(_, healthy) => healthy
    case PostFailed(_) => false
    case PostSucceeded => true
  }

  function AfterEvent(c: Config, h: Health, e: Event): Health {
    if IsClear(e) then HEALTHY else AfterFailure(c, h, e.at)
  }

  function PostEvents(post: PostOutcome): seq<Event> {
    match post
    case Aborted => []
    case PostFails(at) => [PostFailed(at)]
    case PostSucceeds => [PostSucceeded]
  }

  function CallEvents(c: Config, h: Health, call: Call): seq<Event> {
    if h.consecutiveFails < c.threshold then PostEvents(call.post)
    else if Before(call.checkedAt, h.degradedUntil) then []
    else if call.probeHealthy then [Probe(call.checkedAt, true)] + PostEvents(call.post)
    else [Probe(call.checkedAt, false)]
  }

  function AfterEvents(c: Config, h: Health, events: seq<Event>): Health {
    if events == [] then h
    else AfterEvent(c, AfterEvents(c, h, events[..|events| - 1]), events[|events| - 1])
  }

  class FastAPIInsightGenerator {
    const failureThreshold: nat
    const cooldown: int
    var consecutiveFails: nat
    var degradedUntil: Option<int>

    ghost function Settings(): Config { Config(failureThreshold, cooldown) }

    ghost function State(): Health
      reads this
    {
      Health(consecutiveFails, degradedUntil)
    }

    constructor (requestedThreshold: int, requestedCooldown: int)
      ensures Settings().Valid() && State() == HEALTHY
      ensures failureThreshold == if requestedThreshold <= 0 then 3 else requestedThreshold
      ensures cooldown == if requestedCooldown <= 0 then 60 * SECOND else requestedCooldown
    {
      failureThreshold := if requestedThreshold <= 0 then DEFAULT_FAILURES else requestedThreshold;
      cooldown := if requestedCooldown <= 0 then DEFAULT_COOLDOWN else requestedCooldown;
      consecutiveFails, degradedUntil := 0, None;
    }

    method RecordFailure(now: int)
      modifies this
      ensures State() == AfterFailure(Settings(), old(State()), now)
      ensures consecutiveFails == old(consecutiveFails) + 1
      ensures degradedUntil == if consecutiveFails < failureThreshold then old(degradedUntil) else Some(now + cooldown)
    {
      consecutiveFails := consecutiveFails + 1;
      if consecutiveFails >= failureThreshold {
        degradedUntil := Some(now + cooldown);
      }
    }

    method ClearFailures()
      modifies this
      ensures State() == HEALTHY
    {
      consecutiveFails := 0;
      degradedUntil := None;
    }

    method CheckAvailability(now: int, probeHealthy: bool) returns (available: bool)
      modifies this
      ensures available <==> old(consecutiveFails) < failureThreshold
                             || (!Before(now, old(degradedUntil)) && probeHealthy)
      ensures State() == if old(consecutiveFails) < failureThreshold || Before(now, old(degradedUntil))
                         then old(State())
                         else AfterEvent(Settings(), old(State()), Probe(now, probeHealthy))
    {
      var failures, cooldownUntil := consecutiveFails, degradedUntil;
      if failures < failureThreshold {
        return true;
      }
      if Before(now, cooldownUntil) {
        return false;
      }
      if probeHealthy {
        ClearFailures();
        return true;
      }
      RecordFailure(now);
      return false;
    }

    /** GenerateInsight; `ghost events` is what it sends. */
    method GenerateInsight(call: Call) returns (ok: bool, ghost events: seq<Event>)
      modifies this
      ensures events == CallEvents(Settings(), old(State()), call)
      ensures State() == AfterEvents(Settings(), old(State()), events)
      ensures ok <==> PostSucceeded in events
    {
      events := CallEvents(Settings(), State(), call);
      ghost var h := State();
      var available := CheckAvailability(call.checkedAt, call.probeHealthy);
      assert events[..|events|] == events;
      if !available {
        assert |events| == 1 ==> events[..0] == [];
        return false, events;
      }
      AvailableEvents(Settings(), h, call);
      match call.post
      case Aborted =>
        return false, events;
      case PostFails(at) =>
        RecordFailure(at);
        return false, events;
      case PostSucceeds =>
        ClearFailures();
        return true, events;
    }
  }

  /** A call that gets through the check ends like its POST, on top of the probe it may have needed. */
  lemma AvailableEvents(c: Config, h: Health, call: Call)
    requires h.consecutiveFails < c.threshold || (!Before(call.checkedAt, h.degradedUntil) && call.probeHealthy)
    ensures var checked := if h.consecutiveFails < c.threshold then h else HEALTHY;
            AfterEvents(c, h, CallEvents(c, h, call)) ==
            match call.post
            case Aborted => checked
            case PostFails(at) => AfterFailure(c, checked, at)
            case PostSucceeds => HEALTHY
  {
    var events := CallEvents(c, h, call);
    if |events| == 1 {
      assert events[..0] == [];
    } else if |events| == 2 {
      assert events[..1] == [Probe(call.checkedAt, true)];
      assert events[..1][..0] == [];
    }
  }

  // ---------------------------------------------------------------------------
  // One caller, a clock that does not run backwards
  // ---------------------------------------------------------------------------

  function Log(c: Config, calls: seq<Call>): seq<Event> {
    if calls == [] then []
    else
      var before := Log(c, calls[..|calls| - 1]);
      before + CallEvents(c, AfterEvents(c, HEALTHY, before), calls[|calls| - 1])
  }

  /** The last moment a call may read the clock. */
  function EndOf(call: Call): int {
    if call.post.PostFails? then call.post.at else call.checkedAt
  }

  ghost predicate ClockAdvances(calls: seq<Call>) {
    && (forall i :: 0 <= i < |calls| ==> calls[i].checkedAt <= EndOf(calls[i]))
    && (forall i, j :: 0 <= i < j < |calls| ==> EndOf(calls[i]) <= calls[j].checkedAt)
  }

  function FailuresSinceClear(log: seq<Event>): nat {
    if log == [] || IsClear(log[|log| - 1]) then 0 else FailuresSinceClear(log[..|log| - 1]) + 1
  }

  ghost predicate NoClear(log: seq<Event>, from: nat, to: nat)
    requires from <= to <= |log|
  {
    forall m :: from <= m < to ==> !IsClear(log[m])
  }

  /** Every probe is at least a cooldown after every failure of its degraded period. */
  ghost predicate ProbesSpaced(c: Config, log: seq<Event>) {
    forall i, j :: 0 <= i < j < |log| && log[j].Probe? && NoClear(log, i, j) ==> log[i].at + c.cooldown <= log[j].at
  }

  /** What is sent is a probe exactly while the failures since the last clear reach the threshold. */
  ghost predicate ProbesWhenDegraded(c: Config, log: seq<Event>) {
    forall j :: 0 <= j < |log| ==> (log[j].Probe? <==> FailuresSinceClear(log[..j]) >= c.threshold)
  }

  /** The breaker's fields, read off the log; `latest` bounds every time in it. */
  ghost predicate StateFollows(c: Config, h: Health, log: seq<Event>, latest: int) {
    && h.consecutiveFails == FailuresSinceClear(log)
    && (h.degradedUntil.Some? <==> h.consecutiveFails >= c.threshold)
    && (forall i :: 0 <= i < |log| && NoClear(log, i, |log|) ==>
          && log[i].at <= latest
          && (h.degradedUntil.Some? ==> log[i].at + c.cooldown <= h.degradedUntil.value))
  }

  ghost predicate Disciplined(c: Config, log: seq<Event>) {
    ProbesSpaced(c, log) && ProbesWhenDegraded(c, log)
  }

  /** What it takes for the breaker to let an event out. */
  ghost predicate Allowed(c: Config, h: Health, e: Event, now: int) {
    && (e.Probe? <==> h.consecutiveFails >= c.threshold)
    && (e.Probe? ==> e.at == now && !Before(now, h.degradedUntil))
    && (e.PostFailed? ==> e.at == now)
  }

  lemma AllowedStaysSpaced(c: Config, h: Health, log: seq<Event>, latest: int, e: Event, now: int)
    requires ProbesSpaced(c, log) && StateFollows(c, h, log, latest) && Allowed(c, h, e, now)
    ensures ProbesSpaced(c, log + [e])
  {
    hide FailuresSinceClear;
    var longer := log + [e];
    forall i, j | 0 <= i < j < |longer| && longer[j].Probe? && NoClear(longer, i, j)
      ensures longer[i].at + c.cooldown <= longer[j].at
    {
      assert NoClear(log, i, j) by {
        assert forall m :: i <= m < j ==> longer[m] == log[m];
      }
    }
  }

  lemma AllowedProbesWhenDegraded(c: Config, h: Health, log: seq<Event>, e: Event, now: int)
    requires ProbesWhenDegraded(c, log) && h.consecutiveFails == FailuresSinceClear(log) && Allowed(c, h, e, now)
    ensures ProbesWhenDegraded(c, log + [e])
  {
    hide FailuresSinceClear;
    var longer := log + [e];
    forall j | 0 <= j < |longer|
      ensures longer[j].Probe? <==> FailuresSinceClear(longer[..j]) >= c.threshold
    {
      assert longer[..j] == log[..j];
    }
    assert log[..|log|] == log;
  }

  lemma AllowedStateFollows(c: Config, h: Health, log: seq<Event>, latest: int, e: Event, now: int)
    requires c.Valid() && StateFollows(c, h, log, latest) && Allowed(c, h, e, now) && latest <= now
    ensures StateFollows(c, AfterEvent(c, h, e), log + [e], now)
  {
    var longer, after := log + [e], AfterEvent(c, h, e);
    assert longer[..|log|] == log && longer[|log|] == e;
    assert after.consecutiveFails == FailuresSinceClear(longer);
    hide FailuresSinceClear;
    forall i | 0 <= i < |longer| && NoClear(longer, i, |longer|)
      ensures longer[i].at <= now
      ensures after.degradedUntil.Some? ==> longer[i].at + c.cooldown <= after.degradedUntil.value
    {
      assert !IsClear(longer[|log|]);
      if i < |log| {
        assert forall m :: i <= m < |log| ==> longer[m] == log[m];
        assert NoClear(log, i, |log|);
      }
    }
  }

  /** One more event, sent when the breaker allows it. */
  lemma EventKeepsDiscipline(c: Config, h: Health, log: seq<Event>, latest: int, e: Event, now: int)
    requires c.Valid() && Disciplined(c, log) && StateFollows(c, h, log, latest)
    requires Allowed(c, h, e, now) && latest <= now
    ensures Disciplined(c, log + [e])
    ensures StateFollows(c, AfterEvent(c, h, e), log + [e], now)
  {
    AllowedStateFollows(c, h, log, latest, e, now);
    hide Allowed, AfterEvent, ProbesSpaced, ProbesWhenDegraded;
    AllowedStaysSpaced(c, h, log, latest, e, now);
    AllowedProbesWhenDegraded(c, h, log, e, now);
  }

  lemma LaterBound(c: Config, h: Health, log: seq<Event>, latest: int, later: int)
    requires StateFollows(c, h, log, latest) && latest <= later
    ensures StateFollows(c, h, log, later)
  {
  }

  lemma PostKeepsDiscipline(c: Config, h: Health, log: seq<Event>, latest: int, call: Call)
    requires c.Valid() && Disciplined(c, log) && StateFollows(c, h, log, latest)
    requires latest <= call.checkedAt <= EndOf(call) && h.consecutiveFails < c.threshold
    ensures var events := PostEvents(call.post);
            Disciplined(c, log + events) && StateFollows(c, AfterEvents(c, h, events), log + events, EndOf(call))
  {
    var events := PostEvents(call.post);
    if events == [] {
      assert log + events == log;
      LaterBound(c, h, log, latest, EndOf(call));
    } else {
      assert events[..0] == [];
      assert AfterEvents(c, h, events) == AfterEvent(c, h, events[0]);
      assert log + events == log + [events[0]];
      EventKeepsDiscipline(c, h, log, latest, events[0], EndOf(call));
    }
  }

  lemma {:induction false} AfterEventsAppend(c: Config, h: Health, first: seq<Event>, second: seq<Event>)
    ensures AfterEvents(c, h, first + second) == AfterEvents(c, AfterEvents(c, h, first), second)
    decreases |second|
  {
    if second == [] {
      assert first + second == first;
    } else {
      AfterEventsAppend(c, h, first, second[..|second| - 1]);
      assert (first + second)[..|first + second| - 1] == first + second[..|second| - 1];
    }
  }

  lemma CallKeepsDiscipline(c: Config, h: Health, log: seq<Event>, latest: int, call: Call)
    requires c.Valid() && Disciplined(c, log) && StateFollows(c, h, log, latest)
    requires latest <= call.checkedAt <= EndOf(call)
    ensures var events := CallEvents(c, h, call);
            Disciplined(c, log + events) && StateFollows(c, AfterEvents(c, h, events), log + events, EndOf(call))
  {
    var events := CallEvents(c, h, call);
    if h.consecutiveFails < c.threshold {
      PostKeepsDiscipline(c, h, log, latest, call);
    } else if Before(call.checkedAt, h.degradedUntil) {
      assert log + events == log;
      LaterBound(c, h, log, latest, EndOf(call));
    } else {
      var probe := Probe(call.checkedAt, call.probeHealthy);
      EventKeepsDiscipline(c, h, log, latest, probe, call.checkedAt);
      assert [probe][..0] == [];
      assert AfterEvents(c, h, [probe]) == AfterEvent(c, h, probe);
      hide Disciplined, StateFollows, AfterEvent;
      if call.probeHealthy {
        assert AfterEvent(c, h, probe) == HEALTHY by { ClearHeals(c, h, probe); }
        PostKeepsDiscipline(c, HEALTHY, log + [probe], call.checkedAt, call);
        AfterEventsAppend(c, h, [probe], PostEvents(call.post));
        assert log + [probe] + PostEvents(call.post) == log + events;
      } else {
        LaterBound(c, AfterEvent(c, h, probe), log + [probe], call.checkedAt, EndOf(call));
      }
    }
  }

  lemma ClearHeals(c: Config, h: Health, e: Event)
    requires IsClear(e)
    ensures AfterEvent(c, h, e) == HEALTHY
  {
  }

  lemma {:induction false} CallsKeepDiscipline(c: Config, calls: seq<Call>, latest: int)
    requires c.Valid() && ClockAdvances(calls)
    requires calls != [] ==> EndOf(calls[|calls| - 1]) <= latest
    ensures Disciplined(c, Log(c, calls))
    ensures StateFollows(c, AfterEvents(c, HEALTHY, Log(c, calls)), Log(c, calls), latest)
  {
    if calls != [] {
      var front, last := calls[..|calls| - 1], calls[|calls| - 1];
      CallsKeepDiscipline(c, front, last.checkedAt);
      var before := Log(c, front);
      var h := AfterEvents(c, HEALTHY, before);
      CallKeepsDiscipline(c, h, before, last.checkedAt, last);
      AfterEventsAppend(c, HEALTHY, before, CallEvents(c, h, last));
      LaterBound(c, AfterEvents(c, HEALTHY, Log(c, calls)), Log(c, calls), EndOf(last), latest);
    }
  }

  /**
   With one caller and a clock that does not run backwards, over every run: a probe goes out
   exactly when the failures since the last clear have reached the threshold, so no POST goes
   out until a probe succeeds; and a probe is at least one cooldown after every failure of its
   degraded period - the one that opened it and every failed probe.
   */
  lemma SingleCaller(c: Config, calls: seq<Call>)
    requires c.Valid() && ClockAdvances(calls)
    ensures var log := Log(c, calls);
            && (forall j :: 0 <= j < |log| ==> (log[j].Probe? <==> FailuresSinceClear(log[..j]) >= c.threshold))
            && (forall i, j :: 0 <= i < j < |log| && log[j].Probe? && NoClear(log, i, j) ==>
                  log[j].at - log[i].at >= c.cooldown)
            && (AfterEvents(c, HEALTHY, log).degradedUntil.Some? <==> FailuresSinceClear(log) >= c.threshold)
  {
    CallsKeepDiscipline(c, calls, if calls == [] then 0 else EndOf(calls[|calls| - 1]));
  }

  // ---------------------------------------------------------------------------
  // When a degraded breaker lets a call through again
  // ---------------------------------------------------------------------------

  /** When the log's last event failed. */
  function LastFailure(log: seq<Event>): Option<int> {
    if log == [] || IsClear(log[|log| - 1]) then None else Some(log[|log| - 1].at)
  }

  /** The fields are what the log says: a degraded breaker waits one cooldown from the last failure. */
  ghost predicate FollowsLog(c: Config, h: Health, log: seq<Event>) {
    && h.consecutiveFails == FailuresSinceClear(log)
    && (FailuresSinceClear(log) < c.threshold ==> h.degradedUntil.None?)
    && (FailuresSinceClear(log) >= c.threshold ==>
          LastFailure(log).Some? && h.degradedUntil == Some(LastFailure(log).value + c.cooldown))
  }

  lemma EventFollowsLog(c: Config, h: Health, log: seq<Event>, e: Event)
    requires c.Valid() && FollowsLog(c, h, log)
    ensures FollowsLog(c, AfterEvent(c, h, e), log + [e])
  {
    assert (log + [e])[..|log|] == log;
  }

  lemma {:induction false} EventsFollowLog(c: Config, log: seq<Event>)
    requires c.Valid()
    ensures FollowsLog(c, AfterEvents(c, HEALTHY, log), log)
  {
    if log != [] {
      hide FollowsLog, AfterEvent;
      var front := log[..|log| - 1];
      EventsFollowLog(c, front);
      EventFollowsLog(c, AfterEvents(c, HEALTHY, front), front, log[|log| - 1]);
      assert log == front + [log[|log| - 1]];
    }
  }

  /** What a call whose POST goes out adds to the log. */
  ghost predicate Posts(post: PostOutcome, sent: seq<Event>) {
    && (post.Aborted? ==> sent == [])
    && (post.PostFails? ==> sent == [PostFailed(post.at)])
    && (post.PostSucceeds? ==> sent == [PostSucceeded])
  }

  /** The breaker refuses: the threshold is reached, and the last failure is less than a cooldown ago. */
  ghost predicate Refuses(c: Config, log: seq<Event>, now: int) {
    && FailuresSinceClear(log) >= c.threshold
    && LastFailure(log).Some? && now < LastFailure(log).value + c.cooldown
  }

  /**
   With one caller, over every run, whatever the clock does: the next call sends nothing while
   the breaker refuses; it posts at once below the threshold; and as soon as the cooldown after the
   last failure is over it probes, and posts if and only if the probe succeeds.
   */
  lemma NextCall(c: Config, calls: seq<Call>, call: Call)
    requires c.Valid()
    ensures
      var log, longer := Log(c, calls), Log(c, calls + [call]);
      && log <= longer
      && var sent := longer[|log|..];
      && (Refuses(c, log, call.checkedAt) ==> sent == [])
      && (FailuresSinceClear(log) < c.threshold ==> Posts(call.post, sent))
      && (FailuresSinceClear(log) >= c.threshold && !Refuses(c, log, call.checkedAt) ==>
            && sent != [] && sent[0] == Probe(call.checkedAt, call.probeHealthy)
            && (if call.probeHealthy then Posts(call.post, sent[1..]) else sent[1..] == []))
  {
    var log, longer := Log(c, calls), Log(c, calls + [call]);
    assert (calls + [call])[..|calls|] == calls;
    EventsFollowLog(c, log);
    var h := AfterEvents(c, HEALTHY, log);
    hide AfterEvents, Log;
    assert longer == log + CallEvents(c, h, call);
    assert longer[|log|..] == CallEvents(c, h, call);
    if h.consecutiveFails >= c.threshold && !Before(call.checkedAt, h.degradedUntil) && call.probeHealthy {
      assert ([Probe(call.checkedAt, true)] + PostEvents(call.post))[1..] == PostEvents(call.post);
    }
  }
}
