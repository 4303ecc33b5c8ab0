/** The bound on lost pushes is met, for every number of resizes: each one can lose a push. */
module WatcherLosses {

  import opened Growth
  import opened Keys
  import opened Options
  import opened RingBuffers
  import opened WatcherConcurrency
  import opened WatcherModel

  /** A Reconcile that starts tracking the PVC and gets no sample. */
  function FirstLook(key: Key, uid: UID): seq<Action> {
    [EnsureState(key, uid), MetricsFailed(key)]
  }

  /** A Reconcile with a resize between loading the buffer and pushing into it. */
  function LateResize(key: Key, uid: UID, sample: Sample, retention: nat): seq<Action> {
    [EnsureState(key, uid), LoadBuffer(key), StartConfigure(retention),
     CopyBuffer(key), SwapBuffer, EndConfigure, Push(key, sample)]
  }

  /** The retention of the n-th resize: to and fro between two values. */
  function NthRetention(capacity: int, n: nat): nat {
    EffectiveRetention(capacity) + n % 2
  }

  function LateResizes(capacity: int, key: Key, uid: UID, sample: Sample, n: nat): seq<Action> {
    if n == 0 then FirstLook(key, uid)
    else LateResizes(capacity, key, uid, sample, n - 1) + LateResize(key, uid, sample, NthRetention(capacity, n))
  }

  /** Nothing is going on, and the one PVC there is shows no samples. */
  ghost predicate Quiet(s: State, key: Key, uid: UID) {
    && s.mutex.Free? && WorkerOf(s, key).Idle? && s.retention >= 1
    && s.cells.Keys == {key} && s.cells[key].uid == uid && s.cells[key].buffer < |s.heap|
    && s.heap[s.cells[key].buffer].samples == []
    && key in s.traces
  }

  lemma {:induction false} ExecuteAppend(s: State, first: seq<Action>, second: seq<Action>)
    ensures Execute(s, first + second) == Execute(Execute(s, first), second)
    decreases |second|
  {
    if second == [] {
      assert first + second == first;
    } else {
      ExecuteAppend(s, first, second[..|second| - 1]);
      assert (first + second)[..|first + second| - 1] == first + second[..|second| - 1];
    }
  }

  lemma ExecuteStep(s: State, actions: seq<Action>, i: nat)
    requires i < |actions|
    ensures Execute(s, actions[..i + 1]) == Do(Execute(s, actions[..i]), actions[i])
    ensures Execute(s, actions[..0]) == s
  {
    assert actions[..i + 1][..i] == actions[..i];
  }

  /** The worker has loaded the buffer. */
  lemma AfterLoading(s: State, key: Key, uid: UID)
    requires Quiet(s, key, uid)
    ensures Do(Do(s, EnsureState(key, uid)), LoadBuffer(key))
            == s.(workers := s.workers[key := Loaded(s.cells[key].buffer)])
  {
    var t := Do(s, EnsureState(key, uid));
    assert t.workers[key] == Ensured;
    assert t.workers[key := Loaded(s.cells[key].buffer)] == s.workers[key := Loaded(s.cells[key].buffer)];
  }

  lemma AfterCopying(s: State, key: Key, retention: nat)
    requires s.mutex.Free? && s.cells.Keys == {key} && s.cells[key].buffer < |s.heap|
    requires s.heap[s.cells[key].buffer].samples == [] && key in s.traces
    requires retention >= 1 && retention != s.retention
    ensures Do(Do(s, StartConfigure(retention)), CopyBuffer(key))
            == s.(retention := retention, mutex := Configuring({key}, Some(Copy(key, []))),
                  traces := s.traces[key := s.traces[key].(copied := s.traces[key].kept)])
  {
  }

  lemma AfterSwapping(s: State, key: Key)
    requires s.mutex == Configuring({key}, Some(Copy(key, []))) && key in s.cells && key in s.traces
    ensures Do(Do(s, SwapBuffer), EndConfigure)
            == s.(mutex := Free,
                  cells := s.cells[key := s.cells[key].(buffer := |s.heap|)],
                  heap := s.heap + [Buffer(key, s.retention, [])],
                  traces := s.traces[key := s.traces[key].(
                    log := s.traces[key].log + [Resized(s.retention)],
                    kept := s.traces[key].copied + [Resized(s.retention)])])
  {
    var t := Do(s, SwapBuffer);
    assert {key} - {key} == {};
    assert t.mutex == Configuring({}, None);
  }

  lemma AfterLatePush(s: State, key: Key, sample: Sample)
    requires key in s.cells && WorkerOf(s, key).Loaded? && WorkerOf(s, key).buffer < |s.heap| && key in s.traces
    requires s.cells[key].buffer != WorkerOf(s, key).buffer && s.cells[key].buffer < |s.heap|
    ensures var s' := Do(s, Push(key, sample));
            && s'.mutex == s.mutex && s'.retention == s.retention && s'.cells == s.cells && |s'.heap| == |s.heap|
            && WorkerOf(s', key).Idle? && s'.heap[s.cells[key].buffer] == s.heap[s.cells[key].buffer]
            && key in s'.traces && s'.traces[key].log == s.traces[key].log + [Pushed(sample)]
            && s'.traces[key].kept == s.traces[key].kept
  {
    hide LastN;
  }

  lemma RoundInSteps(s: State, key: Key, uid: UID, sample: Sample, retention: nat)
    ensures Execute(s, LateResize(key, uid, sample, retention))
            == Do(Do(Do(Do(Do(Do(Do(s, EnsureState(key, uid)), LoadBuffer(key)), StartConfigure(retention)),
                  CopyBuffer(key)), SwapBuffer), EndConfigure), Push(key, sample))
  {
    hide Do, Execute;
    var actions := LateResize(key, uid, sample, retention);
    ExecuteStep(s, actions, 0);
    ExecuteStep(s, actions, 1);
    ExecuteStep(s, actions, 2);
    ExecuteStep(s, actions, 3);
    ExecuteStep(s, actions, 4);
    ExecuteStep(s, actions, 5);
    ExecuteStep(s, actions, 6);
    assert actions[..7] == actions;
  }

  /** One round loses one push, and leaves things quiet again. */
  lemma RoundLosesPush(s: State, key: Key, uid: UID, sample: Sample, retention: nat)
    requires Quiet(s, key, uid) && retention >= 1 && retention != s.retention
    ensures var s' := Execute(s, LateResize(key, uid, sample, retention));
            && Quiet(s', key, uid) && s'.retention == retention
            && s'.traces[key].log == s.traces[key].log + [Resized(retention)] + [Pushed(sample)]
            && s'.traces[key].kept == s.traces[key].kept + [Resized(retention)]
  {
    RoundInSteps(s, key, uid, sample, retention);
    hide Do, Execute, LateResize;
    AfterLoading(s, key, uid);
    var loaded := s.(workers := s.workers[key := Loaded(s.cells[key].buffer)]);
    AfterCopying(loaded, key, retention);
    var copied := Do(Do(loaded, StartConfigure(retention)), CopyBuffer(key));
    AfterSwapping(copied, key);
    AfterLatePush(Do(Do(copied, SwapBuffer), EndConfigure), key, sample);
  }

  lemma LooksOnce(capacity: int, key: Key, uid: UID)
    ensures var s := Execute(Start(capacity), FirstLook(key, uid));
            && Quiet(s, key, uid) && s.retention == EffectiveRetention(capacity)
            && s.traces[key].log == [] && s.traces[key].kept == []
  {
    var actions, r := FirstLook(key, uid), EffectiveRetention(capacity);
    ExecuteStep(Start(capacity), actions, 0);
    ExecuteStep(Start(capacity), actions, 1);
    assert actions[..2] == actions;
    hide Execute;
    var s := Do(Start(capacity), EnsureState(key, uid));
    assert s == State(r, map[key := Cell(uid, 0)], [Buffer(key, r, [])], map[key := Ensured], Free,
                      map[key := Trace(r, [], [], [])]);
    assert Do(s, MetricsFailed(key)) == s.(workers := map[key := Idle]);
  }

  lemma {:induction false} LossesAddUp(capacity: int, key: Key, uid: UID, sample: Sample, n: nat)
    ensures var s := Execute(Start(capacity), LateResizes(capacity, key, uid, sample, n));
            && Quiet(s, key, uid) && s.retention == NthRetention(capacity, n)
            && |s.traces[key].log| - |s.traces[key].kept| == n && Resizes(s.traces[key].log) == n
  {
    if n == 0 {
      LooksOnce(capacity, key, uid);
    } else {
      hide Quiet, Resizes;
      LossesAddUp(capacity, key, uid, sample, n - 1);
      var before := Execute(Start(capacity), LateResizes(capacity, key, uid, sample, n - 1));
      var retention := NthRetention(capacity, n);
      assert retention != NthRetention(capacity, n - 1);
      ExecuteAppend(Start(capacity), LateResizes(capacity, key, uid, sample, n - 1), LateResize(key, uid, sample, retention));
      hide Execute;
      TracesAreThere(before, key, uid);
      RoundLosesPush(before, key, uid, sample, retention);
      ReplayAppend(0, before.traces[key].log, Resized(retention));
      ReplayAppend(0, before.traces[key].log + [Resized(retention)], Pushed(sample));
    }
  }

  lemma TracesAreThere(s: State, key: Key, uid: UID)
    requires Quiet(s, key, uid)
    ensures key in s.traces
  {
  }

  /** For every n, some run has n resizes and misses n pushes, so that the PVC shows none at all. */
  lemma EveryResizeCanLoseAPush(capacity: int, key: Key, uid: UID, sample: Sample, n: nat)
    ensures var s := Execute(Start(capacity), LateResizes(capacity, key, uid, sample, n));
            && key in s.traces && Visible(s, key).Some? && Visible(s, key).value.samples == []
            && Resizes(s.traces[key].log) == n && |s.traces[key].log| - |s.traces[key].kept| == n
  {
    hide Execute;
    LossesAddUp(capacity, key, uid, sample, n);
  }
}
