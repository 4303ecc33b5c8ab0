/**
 Reconcile running next to Configure.

 controller-runtime never runs two Reconciles of one key at the same time, but nothing keeps
 a Reconcile apart from a Configure: Reconcile holds the watcher's mutex only inside
 ensureState, and then loads the state's buffer and pushes without it. Each constructor
 of `Action` is one atomic step of that code; a step that is not possible leaves the state alone,
 so a run is any sequence of actions.
 */
module WatcherConcurrency {

  import opened Growth
  import opened Keys
  import opened Options
  import opened RingBuffers
  import opened WatcherModel

  type BufferId = nat

  /** A ring buffer on the heap, and the key it was made for. */
  datatype Buffer = Buffer(key: Key, capacity: nat, samples: seq<Sample>)

  datatype Cell = Cell(uid: UID, buffer: BufferId)

  /** Where the Reconcile of a key is. */
  datatype Worker = Idle | Ensured | Loaded(buffer: BufferId)

  /** The watcher's mutex; Configure holds it through its whole loop. */
  datatype Mutex = Free | Configuring(todo: set<Key>, copied: Option<Copy>)

  /** A snapshot Configure has taken of the buffer it is about to replace. */
  datatype Copy = Copy(key: Key, samples: seq<Sample>)

  /** What happened to a PVC's samples under its current UID. */
  datatype Entry = Pushed(s: Sample) | Resized(capacity: nat)

  /**
   Bookkeeping: `log` is everything that happened since the PVC got its current UID, `kept` is
   the part of it that the visible buffer shows, `copied` that part when Configure copied it.
   */
  datatype Trace = Trace(base: nat, log: seq<Entry>, kept: seq<Entry>, copied: seq<Entry>)

  datatype State = State(
    retention: nat, cells: map<Key, Cell>, heap: seq<Buffer>, workers: map<Key, Worker>,
    mutex: Mutex, traces: map<Key, Trace>)

  datatype Action =
    | EnsureState(key: Key, uid: UID)
    | MetricsFailed(key: Key)
    | LoadBuffer(key: Key)
    | Push(key: Key, s: Sample)
    | DeleteState(key: Key)
    | StartConfigure(retention: nat)
    | CopyBuffer(key: Key)
    | SwapBuffer
    | EndConfigure

  function WorkerOf(s: State, key: Key): Worker {
    if key in s.workers then s.workers[key] else Idle
  }

  function Visible(s: State, key: Key): Option<Buffer> {
    if key in s.cells && s.cells[key].buffer < |s.heap| then Some(s.heap[s.cells[key].buffer]) else None
  }

  predicate Enabled(s: State, a: Action) {
    match a
    case EnsureState(key, _) => s.mutex.Free? && WorkerOf(s, key).Idle?
    case MetricsFailed(key) => WorkerOf(s, key).Ensured?
    case LoadBuffer(key) => WorkerOf(s, key).Ensured? && key in s.cells
    case Push(key, _) => WorkerOf(s, key).Loaded? && WorkerOf(s, key).buffer < |s.heap|
    case DeleteState(key) => s.mutex.Free? && WorkerOf(s, key).Idle?
    case StartConfigure(retention) => s.mutex.Free? && retention >= 1 && retention != s.retention
    case CopyBuffer(key) =>
      s.mutex.Configuring? && s.mutex.copied.None? && key in s.mutex.todo && Visible(s, key).Some?
    case SwapBuffer => s.mutex.Configuring? && s.mutex.copied.Some? && s.mutex.copied.value.key in s.cells
    case EndConfigure => s.mutex.Configuring? && s.mutex.copied.None? && s.mutex.todo == {}
  }

  function TraceOf(s: State, key: Key): Trace {
    if key in s.traces then s.traces[key] else Trace(0, [], [], [])
  }

  function Do(s: State, a: Action): State {
    if !Enabled(s, a) then s
    else match a
      case EnsureState(key, uid) =>
        var t := s.(workers := s.workers[key := Ensured]);
        if key !in s.cells then
          t.(cells := s.cells[key := Cell(uid, |s.heap|)],
             heap := s.heap + [Buffer(key, s.retention, [])],
             traces := s.traces[key := Trace(s.retention, [], [], [])])
        else if s.cells[key].uid != uid && Visible(s, key).Some? then
          var current := Visible(s, key).value;
          t.(cells := s.cells[key := s.cells[key].(uid := uid)],
             heap := s.heap[s.cells[key].buffer := current.(samples := [])],
             traces := s.traces[key := Trace(current.capacity, [], [], [])])
        else t
      case MetricsFailed(key) => s.(workers := s.workers[key := Idle])
      case LoadBuffer(key) => s.(workers := s.workers[key := Loaded(s.cells[key].buffer)])
      case Push(key, sample) =>
        var b := WorkerOf(s, key).buffer;
        var target := s.heap[b];
        var visible := key in s.cells && s.cells[key].buffer == b;
        var trace := TraceOf(s, key);
        s.(workers := s.workers[key := Idle],
           heap := s.heap[b := target.(samples := LastN(target.samples + [sample], target.capacity))],
           traces := s.traces[key := trace.(
             log := trace.log + [Pushed(sample)],
             kept := if visible then trace.kept + [Pushed(sample)] else trace.kept)])
      case DeleteState(key) => s.(cells := s.cells - {key}, traces := s.traces - {key})
      case StartConfigure(retention) => s.(retention := retention, mutex := Configuring(s.cells.Keys, None))
      case CopyBuffer(key) =>
        var trace := TraceOf(s, key);
        s.(mutex := s.mutex.(copied := Some(Copy(key, Visible(s, key).value.samples))),
           traces := s.traces[key := trace.(copied := trace.kept)])
      case SwapBuffer =>
        var copy := s.mutex.copied.value;
        var trace := TraceOf(s, copy.key);
        s.(mutex := Configuring(s.mutex.todo - {copy.key}, None),
           cells := s.cells[copy.key := s.cells[copy.key].(buffer := |s.heap|)],
           heap := s.heap + [Buffer(copy.key, s.retention, LastN(copy.samples, s.retention))],
           traces := s.traces[copy.key := trace.(
             log := trace.log + [Resized(s.retention)],
             kept := trace.copied + [Resized(s.retention)])])
      case EndConfigure => s.(mutex := Free)
  }

  function Start(capacity: int): State {
    State(EffectiveRetention(capacity), map[], [], map[], Free, map[])
  }

  function Execute(s: State, actions: seq<Action>): State {
    if actions == [] then s else Do(Execute(s, actions[..|actions| - 1]), actions[|actions| - 1])
  }

  // ---------------------------------------------------------------------------
  // The sequential meaning of a list of entries
  // ---------------------------------------------------------------------------

  function Apply(capacity: nat, samples: seq<Sample>, e: Entry): (nat, seq<Sample>) {
    match e
    case Pushed(s) => (capacity, LastN(samples + [s], capacity))
    case Resized(n) => (n, LastN(samples, n))
  }

  /** Capacity and samples after the entries, one after the other, on a new buffer. */
  function Replay(base: nat, entries: seq<Entry>): (nat, seq<Sample>) {
    if entries == [] then (base, [])
    else
      var (capacity, samples) := Replay(base, entries[..|entries| - 1]);
      Apply(capacity, samples, entries[|entries| - 1])
  }

  function EventOf(key: Key, uid: UID, e: Entry): Event {
    match e
    case Pushed(s) => Observed(key, uid, None, Some(Usage(s.usedBytes, 0)), s.timestamp)
    case Resized(n) => Configured(n)
  }

  function Events(key: Key, uid: UID, entries: seq<Entry>): (r: seq<Event>)
    ensures |r| == |entries|
  {
    seq(|entries|, i requires 0 <= i < |entries| => EventOf(key, uid, entries[i]))
  }

  /** `Replay` is what the sequential watcher does with those pushes and resizes. */
  lemma {:induction false} ReplayIsSequential(w: WatcherView, key: Key, uid: UID, entries: seq<Entry>)
    requires key in w.pvcs && w.pvcs[key].lastUID == uid && w.pvcs[key].samples == []
    requires forall i :: 0 <= i < |entries| && entries[i].Resized? ==> entries[i].capacity >= 1
    ensures var after := Run(w, Events(key, uid, entries));
            && key in after.pvcs && after.pvcs[key].lastUID == uid
            && (after.retention, after.pvcs[key].samples) == Replay(w.retention, entries)
  {
    if entries != [] {
      var front, last := entries[..|entries| - 1], entries[|entries| - 1];
      ReplayIsSequential(w, key, uid, front);
      assert Events(key, uid, entries)[..|entries| - 1] == Events(key, uid, front);
      assert Events(key, uid, entries)[|entries| - 1] == EventOf(key, uid, last);
      ReplayFits(w.retention, front);
      hide LastN, Step, Apply, EventOf, Events;
      ApplyIsStep(Run(w, Events(key, uid, front)), key, uid, last);
    }
  }

  lemma ApplyIsStep(w: WatcherView, key: Key, uid: UID, e: Entry)
    requires key in w.pvcs && w.pvcs[key].lastUID == uid && |w.pvcs[key].samples| <= w.retention
    requires e.Resized? ==> e.capacity >= 1
    ensures var after := Step(w, EventOf(key, uid, e));
            && key in after.pvcs && after.pvcs[key].lastUID == uid
            && (after.retention, after.pvcs[key].samples) == Apply(w.retention, w.pvcs[key].samples, e)
  {
  }

  function NewPVC(retention: nat, key: Key, uid: UID): WatcherView {
    WatcherView(retention, map[key := PVCView(uid, [], 0)])
  }

  /** What the sequential watcher holds for a PVC after the entries. */
  function SequentialSnapshot(base: nat, key: Key, uid: UID, entries: seq<Entry>): seq<Sample> {
    var w := Run(NewPVC(base, key, uid), Events(key, uid, entries));
    if key in w.pvcs then w.pvcs[key].samples else []
  }

  lemma {:induction false} ReplayFits(base: nat, entries: seq<Entry>)
    ensures |Replay(base, entries).1| <= Replay(base, entries).0
  {
    if entries != [] {
      ReplayFits(base, entries[..|entries| - 1]);
    }
  }

  ghost predicate Subsequence<T>(part: seq<T>, whole: seq<T>) {
    if part == [] then true
    else if whole == [] then false
    else
      || (part[|part| - 1] == whole[|whole| - 1] && Subsequence(part[..|part| - 1], whole[..|whole| - 1]))
      || Subsequence(part, whole[..|whole| - 1])
  }

  function Resizes(entries: seq<Entry>): nat {
    if entries == [] then 0
    else Resizes(entries[..|entries| - 1]) + if entries[|entries| - 1].Resized? then 1 else 0
  }

  lemma SubsequenceAppend<T>(part: seq<T>, whole: seq<T>, x: T)
    requires Subsequence(part, whole)
    ensures Subsequence(part + [x], whole + [x])
    ensures Subsequence(part, whole + [x])
  {
    assert (part + [x])[..|part|] == part;
    assert (whole + [x])[..|whole|] == whole;
  }

  lemma ReplayAppend(base: nat, entries: seq<Entry>, e: Entry)
    ensures var (capacity, samples) := Replay(base, entries);
            Replay(base, entries + [e]) == Apply(capacity, samples, e)
    ensures Resizes(entries + [e]) == Resizes(entries) + if e.Resized? then 1 else 0
  {
    assert (entries + [e])[..|entries|] == entries;
  }

  // ---------------------------------------------------------------------------
  // The invariant
  // ---------------------------------------------------------------------------

  /** `kept` leaves out pushes of `log`, but no resize. */
  ghost predicate LeavesOutPushes(kept: seq<Entry>, log: seq<Entry>) {
    && Subsequence(kept, log) && Resizes(kept) == Resizes(log)
    && forall i :: 0 <= i < |kept| && kept[i].Resized? ==> kept[i].capacity >= 1
  }

  /** The key's Reconcile is about to push into a buffer that has been replaced. */
  predicate Stale(s: State, key: Key) {
    key in s.cells && WorkerOf(s, key).Loaded? && WorkerOf(s, key).buffer != s.cells[key].buffer
  }

  predicate Copied(s: State, key: Key) {
    s.mutex.Configuring? && s.mutex.copied.Some? && s.mutex.copied.value.key == key
  }

  ghost predicate TraceFits(s: State, key: Key, t: Trace)
    requires key in s.cells && s.cells[key].buffer < |s.heap|
  {
    var buffer := s.heap[s.cells[key].buffer];
    && (buffer.capacity, buffer.samples) == Replay(t.base, t.kept)
    && LeavesOutPushes(t.kept, t.log)
    && |t.log| - |t.kept| + (if Stale(s, key) then 1 else 0) <= Resizes(t.log)
  }

  /** What Configure's copy is still worth: at most one push has gone past it. */
  ghost predicate CopyFits(s: State, key: Key, t: Trace)
    requires Copied(s, key)
  {
    && s.mutex.copied.value.samples == Replay(t.base, t.copied).1
    && LeavesOutPushes(t.copied, t.log)
    && |t.copied| <= |t.kept| <= |t.copied| + 1
    && (|t.kept| == |t.copied| + 1 ==> WorkerOf(s, key).Idle?)
  }

  ghost predicate KeyInv(s: State, key: Key) {
    && (key in s.cells ==>
          && key in s.traces && s.cells[key].buffer < |s.heap|
          && s.heap[s.cells[key].buffer].key == key
          && TraceFits(s, key, s.traces[key])
          && (Copied(s, key) ==> CopyFits(s, key, s.traces[key])))
    && (!WorkerOf(s, key).Idle? ==> key in s.cells)
    && (WorkerOf(s, key).Loaded? ==>
          WorkerOf(s, key).buffer < |s.heap| && s.heap[WorkerOf(s, key).buffer].key == key)
  }

  ghost predicate Inv(s: State) {
    && s.retention >= 1
    && (s.mutex.Configuring? && s.mutex.copied.Some? ==> s.mutex.copied.value.key in s.mutex.todo)
    && forall key :: KeyInv(s, key)
  }

  function KeyOfAction(s: State, a: Action): Option<Key> {
    match a
    case EnsureState(key, _) => Some(key)
    case MetricsFailed(key) => Some(key)
    case LoadBuffer(key) => Some(key)
    case Push(key, _) => Some(key)
    case DeleteState(key) => Some(key)
    case CopyBuffer(key) => Some(key)
    case SwapBuffer =>
      if s.mutex.Configuring? && s.mutex.copied.Some? then Some(s.mutex.copied.value.key) else None
    case _ => None
  }

  /** All that is known of a key looks the same. */
  ghost predicate SameForKey(s: State, s': State, key: Key) {
    && |s.heap| <= |s'.heap| && WorkerOf(s', key) == WorkerOf(s, key)
    && (key in s'.cells <==> key in s.cells)
    && (key in s.cells ==>
          && s'.cells[key] == s.cells[key] && key in s.traces && key in s'.traces && s'.traces[key] == s.traces[key]
          && s.cells[key].buffer < |s.heap| && s'.heap[s.cells[key].buffer] == s.heap[s.cells[key].buffer])
    && (WorkerOf(s, key).Loaded? && WorkerOf(s, key).buffer < |s.heap| ==>
          s'.heap[WorkerOf(s, key).buffer].key == s.heap[WorkerOf(s, key).buffer].key)
    && (Copied(s', key) ==> Copied(s, key) && s'.mutex.copied == s.mutex.copied)
  }

  lemma SameForKeyKeepsInv(s: State, s': State, key: Key)
    requires KeyInv(s, key) && SameForKey(s, s', key)
    ensures KeyInv(s', key)
  {
    hide Replay, LeavesOutPushes, Resizes;
  }

  /** The buffers a key refers to exist and were made for it. */
  ghost predicate OwnBuffers(s: State, key: Key) {
    && (key in s.cells ==>
          key in s.traces && s.cells[key].buffer < |s.heap| && s.heap[s.cells[key].buffer].key == key)
    && (WorkerOf(s, key).Loaded? ==>
          WorkerOf(s, key).buffer < |s.heap| && s.heap[WorkerOf(s, key).buffer].key == key)
  }

  lemma KeysOwnBuffers(s: State, key: Key)
    requires Inv(s)
    ensures OwnBuffers(s, key)
  {
    hide TraceFits, CopyFits;
    assert KeyInv(s, key);
  }

  lemma OtherKeysUntouched(s: State, a: Action, key: Key)
    requires OwnBuffers(s, key) && KeyOfAction(s, a) != Some(key)
    requires KeyOfAction(s, a).Some? ==> OwnBuffers(s, KeyOfAction(s, a).value)
    ensures SameForKey(s, Do(s, a), key)
  {
    hide LastN;
  }

  /** A step taken for one key leaves what is known of every other key alone. */
  lemma OtherKeysKeepInv(s: State, a: Action, key: Key)
    requires Inv(s) && KeyOfAction(s, a) != Some(key)
    ensures KeyInv(Do(s, a), key)
  {
    assert KeyInv(s, key);
    KeysOwnBuffers(s, key);
    hide Inv, KeyInv, SameForKey, Do, OwnBuffers;
    if KeyOfAction(s, a).Some? {
      KeysOwnBuffers(s, KeyOfAction(s, a).value);
    }
    OtherKeysUntouched(s, a, key);
    SameForKeyKeepsInv(s, Do(s, a), key);
  }

  lemma PushLogged(kept: seq<Entry>, log: seq<Entry>, sample: Sample)
    requires LeavesOutPushes(kept, log)
    ensures LeavesOutPushes(kept + [Pushed(sample)], log + [Pushed(sample)])
    ensures LeavesOutPushes(kept, log + [Pushed(sample)])
    ensures Resizes(log + [Pushed(sample)]) == Resizes(log)
  {
    SubsequenceAppend(kept, log, Pushed(sample));
    ReplayAppend(0, kept, Pushed(sample));
    ReplayAppend(0, log, Pushed(sample));
  }

  lemma ResizeLogged(kept: seq<Entry>, log: seq<Entry>, capacity: nat)
    requires LeavesOutPushes(kept, log) && capacity >= 1
    ensures LeavesOutPushes(kept + [Resized(capacity)], log + [Resized(capacity)])
    ensures Resizes(log + [Resized(capacity)]) == Resizes(log) + 1
  {
    SubsequenceAppend(kept, log, Resized(capacity));
    ReplayAppend(0, kept, Resized(capacity));
    ReplayAppend(0, log, Resized(capacity));
  }

  lemma PushKeepsInv(s: State, key: Key, sample: Sample)
    requires Inv(s)
    ensures KeyInv(Do(s, Push(key, sample)), key)
  {
    assert KeyInv(s, key);
    if Enabled(s, Push(key, sample)) {
      hide LeavesOutPushes, Resizes, Replay, LastN;
      var t := s.traces[key];
      ReplayAppend(t.base, t.kept, Pushed(sample));
      PushLogged(t.kept, t.log, sample);
      if Copied(s, key) {
        PushLogged(t.copied, t.log, sample);
      }
    }
  }

  lemma SwapKeepsInv(s: State, key: Key)
    requires Inv(s) && Copied(s, key)
    ensures KeyInv(Do(s, SwapBuffer), key)
  {
    assert KeyInv(s, key);
    if Enabled(s, SwapBuffer) {
      hide LeavesOutPushes, Resizes, Replay, LastN;
      var t := s.traces[key];
      ReplayAppend(t.base, t.copied, Resized(s.retention));
      ResizeLogged(t.copied, t.log, s.retention);
    }
  }

  lemma NothingLogged()
    ensures LeavesOutPushes([], []) && Resizes([]) == 0
    ensures forall base: nat :: Replay(base, []) == (base, [])
  {
  }

  lemma EnsureKeepsInv(s: State, key: Key, uid: UID)
    requires Inv(s)
    ensures KeyInv(Do(s, EnsureState(key, uid)), key)
  {
    assert KeyInv(s, key);
    NothingLogged();
    hide LeavesOutPushes, Resizes, Replay;
  }

  lemma QuietKeepsInv(s: State, a: Action, key: Key)
    requires Inv(s) && KeyOfAction(s, a) == Some(key)
    requires a.MetricsFailed? || a.LoadBuffer? || a.DeleteState? || a.CopyBuffer?
    ensures KeyInv(Do(s, a), key)
  {
    hide LeavesOutPushes, Resizes, Replay;
    assert KeyInv(s, key);
  }

  lemma OwnKeyKeepsInv(s: State, a: Action, key: Key)
    requires Inv(s) && KeyOfAction(s, a) == Some(key)
    ensures KeyInv(Do(s, a), key)
  {
    match a
    case Push(_, sample) => PushKeepsInv(s, key, sample);
    case SwapBuffer => SwapKeepsInv(s, key);
    case EnsureState(_, uid) => EnsureKeepsInv(s, key, uid);
    case StartConfigure(_) =>
    case EndConfigure =>
    case _ => QuietKeepsInv(s, a, key);
  }

  lemma ActionsKeepInv(s: State, a: Action)
    requires Inv(s)
    ensures Inv(Do(s, a))
  {
    hide KeyInv;
    forall key ensures KeyInv(Do(s, a), key) {
      if KeyOfAction(s, a) == Some(key) {
        OwnKeyKeepsInv(s, a, key);
      } else {
        OtherKeysKeepInv(s, a, key);
      }
    }
    MutexKeepsInv(s, a);
  }

  lemma MutexKeepsInv(s: State, a: Action)
    requires Inv(s)
    ensures var s' := Do(s, a);
            && s'.retention >= 1
            && (s'.mutex.Configuring? && s'.mutex.copied.Some? ==> s'.mutex.copied.value.key in s'.mutex.todo)
  {
  }

  lemma {:induction false} RunsKeepInv(capacity: int, actions: seq<Action>)
    ensures Inv(Execute(Start(capacity), actions))
  {
    if actions != [] {
      hide Inv, Do;
      RunsKeepInv(capacity, actions[..|actions| - 1]);
      ActionsKeepInv(Execute(Start(capacity), actions[..|actions| - 1]), actions[|actions| - 1]);
    }
  }

  // ---------------------------------------------------------------------------
  // What happened to a PVC, told by the actions alone
  // ---------------------------------------------------------------------------

  /** The pushes and resizes of a PVC since it got its UID, and the capacity it had then. */
  datatype Chapter = Chapter(uid: UID, base: nat, log: seq<Entry>)

  /** How a step that can be taken goes on with what happened to a PVC before. */
  function Continue(s: State, a: Action, key: Key, before: Option<Chapter>): Option<Chapter> {
    if !Enabled(s, a) || KeyOfAction(s, a) != Some(key) then before
    else if a.DeleteState? then None
    else if before.None? then
      if a.EnsureState? then Some(Chapter(a.uid, s.retention, [])) else None
    else
      var c := before.value;
      match a
      case EnsureState(_, uid) => if c.uid == uid then before else Some(Chapter(uid, Replay(c.base, c.log).0, []))
      case Push(_, sample) => Some(c.(log := c.log + [Pushed(sample)]))
      case SwapBuffer => Some(c.(log := c.log + [Resized(s.retention)]))
      case _ => before
  }

  function Story(capacity: int, actions: seq<Action>, key: Key): Option<Chapter> {
    if actions == [] then None
    else
      var front := actions[..|actions| - 1];
      Continue(Execute(Start(capacity), front), actions[|actions| - 1], key, Story(capacity, front, key))
  }

  /** The story as the bookkeeping has it. */
  function Logged(s: State, key: Key): Option<Chapter> {
    if key in s.cells then Some(Chapter(s.cells[key].uid, TraceOf(s, key).base, TraceOf(s, key).log)) else None
  }

  lemma {:induction false} FewerResizes(part: seq<Entry>, whole: seq<Entry>)
    requires Subsequence(part, whole)
    ensures Resizes(part) <= Resizes(whole)
  {
    if part != [] {
      if part[|part| - 1] == whole[|whole| - 1] && Subsequence(part[..|part| - 1], whole[..|whole| - 1]) {
        FewerResizes(part[..|part| - 1], whole[..|whole| - 1]);
      } else {
        FewerResizes(part, whole[..|whole| - 1]);
      }
    }
  }

  /** Pushes that are left out do not change the capacity. */
  lemma {:induction false} SameCapacity(base: nat, part: seq<Entry>, whole: seq<Entry>)
    requires Subsequence(part, whole) && Resizes(part) == Resizes(whole)
    ensures Replay(base, part).0 == Replay(base, whole).0
  {
    if whole != [] {
      var front := whole[..|whole| - 1];
      if part != [] && part[|part| - 1] == whole[|whole| - 1] && Subsequence(part[..|part| - 1], front) {
        SameCapacity(base, part[..|part| - 1], front);
      } else {
        FewerResizes(part, front);
        SameCapacity(base, part, front);
      }
    }
  }

  lemma BufferCapacity(s: State, key: Key)
    requires KeyInv(s, key) && key in s.cells
    ensures Visible(s, key).Some?
    ensures Visible(s, key).value.capacity == Replay(TraceOf(s, key).base, TraceOf(s, key).log).0
  {
    var t := s.traces[key];
    SameCapacity(t.base, t.kept, t.log);
  }

  lemma StoryGoesOn(s: State, a: Action, key: Key)
    requires Inv(s)
    ensures Logged(Do(s, a), key) == Continue(s, a, key, Logged(s, key))
  {
    assert KeyInv(s, key);
    hide LastN, Replay;
    if key in s.cells {
      BufferCapacity(s, key);
    }
    hide KeyInv;
    if KeyOfAction(s, a) != Some(key) {
      OtherStoriesStay(s, a, key);
    } else {
      hide Inv;
    }
  }

  lemma OtherStoriesStay(s: State, a: Action, key: Key)
    requires Inv(s) && KeyOfAction(s, a) != Some(key)
    ensures Logged(Do(s, a), key) == Logged(s, key)
  {
    KeysOwnBuffers(s, key);
    if KeyOfAction(s, a).Some? {
      KeysOwnBuffers(s, KeyOfAction(s, a).value);
    }
    OtherKeysUntouched(s, a, key);
    hide Inv, Do, OwnBuffers;
  }

  /** The bookkeeping tells what the actions did. */
  lemma {:induction false} TracesTellTheStory(capacity: int, actions: seq<Action>, key: Key)
    ensures Story(capacity, actions, key) == Logged(Execute(Start(capacity), actions), key)
  {
    if actions != [] {
      hide Inv, Do, Logged, Continue;
      var front := actions[..|actions| - 1];
      TracesTellTheStory(capacity, front, key);
      RunsKeepInv(capacity, front);
      StoryGoesOn(Execute(Start(capacity), front), actions[|actions| - 1], key);
    }
  }

  /**
   Under every interleaving, a PVC's snapshot is what the sequential watcher would hold after
   all the resizes and some of the pushes since the PVC got its current UID, in their order;
   and it misses at most as many pushes as there were resizes. What happened is `Story`.
   */
  lemma SnapshotsUnderConcurrency(capacity: int, actions: seq<Action>, key: Key)
    requires key in Execute(Start(capacity), actions).cells
    ensures var s := Execute(Start(capacity), actions);
            && key in s.traces && Visible(s, key).Some?
            && var trace := s.traces[key];
            && Story(capacity, actions, key) == Some(Chapter(s.cells[key].uid, trace.base, trace.log))
            && Visible(s, key).value.samples == SequentialSnapshot(trace.base, key, s.cells[key].uid, trace.kept)
            && Subsequence(trace.kept, trace.log)
            && Resizes(trace.kept) == Resizes(trace.log)
            && |trace.log| - |trace.kept| <= Resizes(trace.log)
  {
    var s := Execute(Start(capacity), actions);
    RunsKeepInv(capacity, actions);
    TracesTellTheStory(capacity, actions, key);
    assert KeyInv(s, key);
    var trace := s.traces[key];
    ReplayIsSequential(NewPVC(trace.base, key, s.cells[key].uid), key, s.cells[key].uid, trace.kept);
  }
}
