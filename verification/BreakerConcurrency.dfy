/**
 Any number of concurrent callers of one breaker. Each GenerateInsight is up to three atomic
 sections under the mutex, with an HTTP exchange between them: read the fields; after a probe,
 clear or record; after the POST, clear or record. A step that is not possible leaves the state
 alone, so a run is any sequence of actions; times are arbitrary.
 */
module BreakerConcurrency {

  import opened Breaker
  import opened Options

  /** Where a caller is: outside, probing since `now`, or posting. */
  datatype Phase = Outside | Probing(now: int) | Posting

  /** `postFailures` counts the POST failures recorded since the last clear. */
  datatype State = State(health: Health, phases: seq<Phase>, postFailures: nat)

  datatype Action =
    | Check(caller: nat, now: int)
    | ProbeAnswered(caller: nat, healthy: bool)
    | PostAborted(caller: nat)
    | PostAnswered(caller: nat, outcome: Event)

  predicate Enabled(s: State, a: Action) {
    a.caller < |s.phases| &&
    match a
    case Check(i, _) => s.phases[i].Outside?
    case ProbeAnswered(i, _) => s.phases[i].Probing?
    case PostAborted(i) => s.phases[i].Posting?
    case PostAnswered(i, outcome) => s.phases[i].Posting? && !outcome.Probe?
  }

  /** The first section decides how the call goes on. */
  function Checked(c: Config, h: Health, now: int): Phase {
    if h.consecutiveFails < c.threshold then Posting
    else if Before(now, h.degradedUntil) then Outside
    else Probing(now)
  }

  function Do(c: Config, s: State, a: Action): State {
    if !Enabled(s, a) then s
    else match a
      case Check(i, now) => s.(phases := s.phases[i := Checked(c, s.health, now)])
      case ProbeAnswered(i, healthy) =>
        if healthy then State(HEALTHY, s.phases[i := Posting], 0)
        else State(AfterFailure(c, s.health, s.phases[i].now), s.phases[i := Outside], s.postFailures)
      case PostAborted(i) => s.(phases := s.phases[i := Outside])
      case PostAnswered(i, outcome) =>
        var after := s.phases[i := Outside];
        match outcome
        case PostFailed(at) => State(AfterFailure(c, s.health, at), after, s.postFailures + 1)
        case _ => State(HEALTHY, after, 0)
  }

  function Start(callers: nat): State {
    State(HEALTHY, seq(callers, _ => Outside), 0)
  }

  function Execute(c: Config, s: State, actions: seq<Action>): State {
    if actions == [] then s else Do(c, Execute(c, s, actions[..|actions| - 1]), actions[|actions| - 1])
  }

  function InPost(phases: seq<Phase>): (n: nat)
    ensures n <= |phases|
  {
    if phases == [] then 0 else InPost(phases[..|phases| - 1]) + if phases[|phases| - 1].Posting? then 1 else 0
  }

  ghost predicate Inv(c: Config, s: State, callers: nat) {
    && |s.phases| == callers
    && (s.health.degradedUntil.None? <==> s.health.consecutiveFails < c.threshold)
    && s.postFailures <= s.health.consecutiveFails
    && s.postFailures + InPost(s.phases) <= c.threshold + callers - 1
  }

  lemma {:induction false} InPostUpdate(phases: seq<Phase>, i: nat, phase: Phase)
    requires i < |phases|
    ensures InPost(phases[i := phase])
            == InPost(phases) - (if phases[i].Posting? then 1 else 0) + (if phase.Posting? then 1 else 0)
  {
    var front := phases[..|phases| - 1];
    if i < |front| {
      InPostUpdate(front, i, phase);
      assert phases[i := phase][..|phases| - 1] == front[i := phase];
    } else {
      assert phases[i := phase][..|phases| - 1] == front;
    }
  }

  lemma ActionKeepsInv(c: Config, s: State, callers: nat, a: Action)
    requires c.Valid() && Inv(c, s, callers)
    ensures Inv(c, Do(c, s, a), callers)
  {
    if Enabled(s, a) {
      InPostUpdate(s.phases, a.caller, Do(c, s, a).phases[a.caller]);
    }
  }

  lemma {:induction false} NobodyPosts(callers: nat)
    ensures InPost(seq(callers, _ => Outside)) == 0
  {
    if callers > 0 {
      NobodyPosts(callers - 1);
      assert seq(callers, _ => Outside)[..callers - 1] == seq(callers - 1, _ => Outside);
    }
  }

  lemma {:induction false} RunsKeepInv(c: Config, callers: nat, actions: seq<Action>)
    requires c.Valid()
    ensures Inv(c, Execute(c, Start(callers), actions), callers)
  {
    if actions == [] {
      NobodyPosts(callers);
    } else {
      RunsKeepInv(c, callers, actions[..|actions| - 1]);
      ActionKeepsInv(c, Execute(c, Start(callers), actions[..|actions| - 1]), callers, actions[|actions| - 1]);
    }
  }

  /**
   Under every interleaving of k callers: the breaker has a deadline exactly when it is
   degraded, and no more than threshold + k - 1 POST failures are recorded between clears.
   */
  lemma ConcurrentCallers(c: Config, callers: nat, actions: seq<Action>)
    requires c.Valid() && callers >= 1
    ensures var s := Execute(c, Start(callers), actions);
            && (s.health.degradedUntil.None? <==> s.health.consecutiveFails < c.threshold)
            && s.postFailures <= c.threshold + callers - 1
  {
    RunsKeepInv(c, callers, actions);
  }

  // ---------------------------------------------------------------------------
  // When a degraded breaker lets callers through again
  // ---------------------------------------------------------------------------

  /** What a step records under the mutex. */
  function RecordedBy(s: State, a: Action): seq<Event> {
    if !Enabled(s, a) then []
    else match a
      case ProbeAnswered(i, healthy) => [Probe(s.phases[i].now, healthy)]
      case PostAnswered(_, outcome) => [outcome]
      case _ => []
  }

  /** All that was recorded, in the order of the mutex. */
  function Recorded(c: Config, s: State, actions: seq<Action>): seq<Event> {
    if actions == [] then []
    else
      var front := actions[..|actions| - 1];
      Recorded(c, s, front) + RecordedBy(Execute(c, s, front), actions[|actions| - 1])
  }

  lemma ActionFollowsLog(c: Config, s: State, log: seq<Event>, a: Action)
    requires c.Valid() && FollowsLog(c, s.health, log)
    ensures FollowsLog(c, Do(c, s, a).health, log + RecordedBy(s, a))
  {
    hide FollowsLog;
    if RecordedBy(s, a) == [] {
      assert log + [] == log;
    } else {
      EventFollowsLog(c, s.health, log, RecordedBy(s, a)[0]);
      hide AfterFailure;
    }
  }

  lemma {:induction false} RunsFollowLog(c: Config, callers: nat, actions: seq<Action>)
    requires c.Valid()
    ensures FollowsLog(c, Execute(c, Start(callers), actions).health, Recorded(c, Start(callers), actions))
  {
    if actions != [] {
      hide FollowsLog, Do, RecordedBy;
      var front, last := actions[..|actions| - 1], actions[|actions| - 1];
      RunsFollowLog(c, callers, front);
      ActionFollowsLog(c, Execute(c, Start(callers), front), Recorded(c, Start(callers), front), last);
    }
  }

  /**
   Under every interleaving, a caller that looks goes on to its POST below the threshold, is
   turned away while the failure recorded last is less than a cooldown ago, and else probes.
   */
  lemma NextCheck(c: Config, callers: nat, actions: seq<Action>, i: nat, now: int)
    requires c.Valid()
    requires i < |Execute(c, Start(callers), actions).phases|
    requires Execute(c, Start(callers), actions).phases[i].Outside?
    ensures
      var s, log := Execute(c, Start(callers), actions), Recorded(c, Start(callers), actions);
      var phase := Do(c, s, Check(i, now)).phases[i];
      && (phase == Posting <==> FailuresSinceClear(log) < c.threshold)
      && (phase == Outside <==> Refuses(c, log, now))
      && (phase == Probing(now) <==> FailuresSinceClear(log) >= c.threshold && !Refuses(c, log, now))
  {
    RunsFollowLog(c, callers, actions);
    hide Execute, Recorded, LastFailure, FailuresSinceClear;
  }

  // ---------------------------------------------------------------------------
  // The bound is met
  // ---------------------------------------------------------------------------

  /** One caller fails n times in a row. */
  function FailAlone(n: nat): seq<Action> {
    if n == 0 then [] else FailAlone(n - 1) + [Check(0, 0), PostAnswered(0, PostFailed(0))]
  }

  /** The first n callers all look, and see a breaker that still lets them through. */
  function CheckFirst(n: nat): seq<Action> {
    if n == 0 then [] else CheckFirst(n - 1) + [Check(n - 1, 0)]
  }

  /** Then the first n callers' POSTs all fail. */
  function FailFirst(n: nat): seq<Action> {
    if n == 0 then [] else FailFirst(n - 1) + [PostAnswered(n - 1, PostFailed(0))]
  }

  function Phases(callers: nat, from: nat, to: nat): (p: seq<Phase>)
    ensures |p| == callers
  {
    seq(callers, i => if from <= i < to then Posting else Outside)
  }

  lemma {:induction false} ExecuteAppend(c: Config, s: State, first: seq<Action>, second: seq<Action>)
    ensures Execute(c, s, first + second) == Execute(c, Execute(c, s, first), second)
    decreases |second|
  {
    if second == [] {
      assert first + second == first;
    } else {
      ExecuteAppend(c, s, first, second[..|second| - 1]);
      assert (first + second)[..|first + second| - 1] == first + second[..|second| - 1];
    }
  }

  lemma ExecuteOne(c: Config, s: State, a: Action)
    ensures Execute(c, s, [a]) == Do(c, s, a)
  {
    assert [a][..0] == [];
  }

  lemma {:induction false} AfterFailAlone(c: Config, callers: nat, n: nat)
    requires c.Valid() && callers >= 1 && n < c.threshold
    ensures Execute(c, Start(callers), FailAlone(n)) == State(Health(n, None), Phases(callers, 0, 0), n)
  {
    if n > 0 {
      var last := [Check(0, 0), PostAnswered(0, PostFailed(0))];
      var s := State(Health(n - 1, None), Phases(callers, 0, 0), n - 1);
      AfterFailAlone(c, callers, n - 1);
      ExecuteAppend(c, Start(callers), FailAlone(n - 1), last);
      assert last[..1] == [Check(0, 0)];
      ExecuteOne(c, s, Check(0, 0));
      assert s.phases[0 := Posting][0 := Outside] == s.phases;
    } else {
      assert Phases(callers, 0, 0) == Start(callers).phases;
    }
  }

  lemma {:induction false} AfterCheckFirst(c: Config, callers: nat, n: nat, fails: nat)
    requires n <= callers && fails < c.threshold
    ensures var s := State(Health(fails, None), Phases(callers, 0, 0), fails);
            Execute(c, s, CheckFirst(n)) == s.(phases := Phases(callers, 0, n))
  {
    if n > 0 {
      var s := State(Health(fails, None), Phases(callers, 0, 0), fails);
      AfterCheckFirst(c, callers, n - 1, fails);
      ExecuteAppend(c, s, CheckFirst(n - 1), [Check(n - 1, 0)]);
      ExecuteOne(c, s.(phases := Phases(callers, 0, n - 1)), Check(n - 1, 0));
      assert Phases(callers, 0, n - 1)[n - 1 := Posting] == Phases(callers, 0, n);
    }
  }

  lemma FailOne(c: Config, s: State, callers: nat, n: nat)
    requires n < callers && s.phases == Phases(callers, n, callers)
    ensures var after := Do(c, s, PostAnswered(n, PostFailed(0)));
            after.postFailures == s.postFailures + 1 && after.phases == Phases(callers, n + 1, callers)
  {
    assert s.phases[n := Outside] == Phases(callers, n + 1, callers);
  }

  lemma {:induction false} AfterFailFirst(c: Config, s: State, callers: nat, n: nat)
    requires n <= callers && s.phases == Phases(callers, 0, callers)
    ensures var after := Execute(c, s, FailFirst(n));
            after.postFailures == s.postFailures + n && after.phases == Phases(callers, n, callers)
  {
    if n > 0 {
      hide Do, Phases;
      var last := PostAnswered(n - 1, PostFailed(0));
      AfterFailFirst(c, s, callers, n - 1);
      ExecuteAppend(c, s, FailFirst(n - 1), [last]);
      var before := Execute(c, s, FailFirst(n - 1));
      ExecuteOne(c, before, last);
      FailOne(c, before, callers, n - 1);
    }
  }

  /** For every threshold and number of callers, some run records exactly threshold + k - 1 failures. */
  lemma BoundIsMet(c: Config, callers: nat)
    requires c.Valid() && callers >= 1
    ensures var run := FailAlone(c.threshold - 1) + CheckFirst(callers) + FailFirst(callers);
            Execute(c, Start(callers), run).postFailures == c.threshold + callers - 1
  {
    var fails := c.threshold - 1;
    var s := State(Health(fails, None), Phases(callers, 0, 0), fails);
    AfterFailAlone(c, callers, fails);
    AfterCheckFirst(c, callers, callers, fails);
    ExecuteAppend(c, Start(callers), FailAlone(fails), CheckFirst(callers));
    ExecuteAppend(c, Start(callers), FailAlone(fails) + CheckFirst(callers), FailFirst(callers));
    AfterFailFirst(c, s.(phases := Phases(callers, 0, callers)), callers, callers);
  }
}
