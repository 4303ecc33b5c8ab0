/**
 GetSnapshot running next to Reconcile and Configure.

 A reader looks the PVC's state up under the watcher's mutex, but reads the state's buffer field
 and copies the buffer after letting go of it. In between, the buffer can be swapped out or the
 PVC deleted, so what a reader copies need not be what the watcher shows. The actions of
 `WatcherConcurrency` are steps here too; three more are a reader's.
 */
module WatcherReaders {

  import opened Growth
  import opened Keys
  import opened Options
  import opened RingBuffers
  import opened WatcherConcurrency
  import opened WatcherModel

  /** Where a GetSnapshot is. `id` tells one state object of a key from the next. */
  datatype Reader =
    | Away
    | HasState(key: Key, id: nat)
    | HasField(key: Key, buffer: BufferId)
    | Returned(key: Key, samples: seq<Sample>, past: Past)
    | ReturnedNothing

  /**
   Bookkeeping for a buffer: what happened to the PVC under one UID while the buffer was in
   use, and the part of it that the buffer shows.
   */
  datatype Past = Past(uid: UID, base: nat, kept: seq<Entry>, whole: seq<Entry>)

  /**
   `objects` numbers the state objects in use, `detached` keeps the buffer field of those that
   were deleted, `retired` the past of the buffers no state in use refers to any more.
   */
  datatype System = System(
    watcher: State, created: nat, objects: map<Key, nat>, detached: map<(Key, nat), BufferId>,
    retired: map<BufferId, Past>, readers: map<nat, Reader>)

  datatype Step =
    | Watch(action: Action)
    | FindState(reader: nat, key: Key)
    | LoadField(reader: nat)
    | TakeSamples(reader: nat)

  function ReaderOf(s: System, r: nat): Reader {
    if r in s.readers then s.readers[r] else Away
  }

  function PastOf(s: State, key: Key): Past
    requires key in s.cells
  {
    var t := TraceOf(s, key);
    Past(s.cells[key].uid, t.base, t.kept, t.log)
  }

  /** A buffer leaves use: its past is kept. */
  function Retire(s: System, key: Key): map<BufferId, Past>
    requires key in s.watcher.cells
  {
    s.retired[s.watcher.cells[key].buffer := PastOf(s.watcher, key)]
  }

  function LatePush(past: Past, sample: Sample): Past {
    past.(kept := past.kept + [Pushed(sample)], whole := past.whole + [Pushed(sample)])
  }

  function Watched(s: System, a: Action): System {
    var next := s.(watcher := Do(s.watcher, a));
    if !Enabled(s.watcher, a) then s
    else match a
      case EnsureState(key, _) =>
        if key in s.watcher.cells then next
        else next.(created := s.created + 1, objects := s.objects[key := s.created])
      case DeleteState(key) =>
        if key !in s.watcher.cells || key !in s.objects then next
        else next.(objects := s.objects - {key}, retired := Retire(s, key),
                   detached := s.detached[(key, s.objects[key]) := s.watcher.cells[key].buffer])
      case SwapBuffer => next.(retired := Retire(s, s.watcher.mutex.copied.value.key))
      case Push(key, sample) =>
        var b := WorkerOf(s.watcher, key).buffer;
        if b in s.retired then next.(retired := s.retired[b := LatePush(s.retired[b], sample)]) else next
      case _ => next
  }

  /** The buffer field of a state object, in use or deleted. */
  function FieldOf(s: System, key: Key, id: nat): Option<BufferId> {
    if key in s.objects && s.objects[key] == id && key in s.watcher.cells then Some(s.watcher.cells[key].buffer)
    else if (key, id) in s.detached then Some(s.detached[(key, id)])
    else None
  }

  function Take(s: System, step: Step): System {
    match step
    case Watch(a) => Watched(s, a)
    case FindState(r, key) =>
      if !s.watcher.mutex.Free? || !(ReaderOf(s, r).Away? || ReaderOf(s, r).Returned? || ReaderOf(s, r).ReturnedNothing?)
      then s
      else if key in s.objects then s.(readers := s.readers[r := HasState(key, s.objects[key])])
      else s.(readers := s.readers[r := ReturnedNothing])
    case LoadField(r) =>
      var reader := ReaderOf(s, r);
      if !reader.HasState? then s
      else
        var field := FieldOf(s, reader.key, reader.id);
        if field.None? then s else s.(readers := s.readers[r := HasField(reader.key, field.value)])
    case TakeSamples(r) =>
      var reader := ReaderOf(s, r);
      if !reader.HasField? || reader.buffer >= |s.watcher.heap| then s
      else if reader.buffer in s.retired then
        s.(readers := s.readers[r := Returned(
             reader.key, s.watcher.heap[reader.buffer].samples, s.retired[reader.buffer])])
      else if reader.key in s.watcher.cells then
        s.(readers := s.readers[r := Returned(
             reader.key, s.watcher.heap[reader.buffer].samples, PastOf(s.watcher, reader.key))])
      else s
  }

  function Begin(capacity: int): System {
    System(Start(capacity), 0, map[], map[], map[], map[])
  }

  function Proceed(s: System, steps: seq<Step>): System {
    if steps == [] then s else Take(Proceed(s, steps[..|steps| - 1]), steps[|steps| - 1])
  }

  // ---------------------------------------------------------------------------
  // The invariant
  // ---------------------------------------------------------------------------

  predicate InUse(s: State, b: BufferId)
    requires b < |s.heap|
  {
    s.heap[b].key in s.cells && s.cells[s.heap[b].key].buffer == b
  }

  /** The samples are what the past says, and it misses no more pushes than there were resizes. */
  ghost predicate Fits(samples: seq<Sample>, past: Past) {
    && samples == Replay(past.base, past.kept).1
    && LeavesOutPushes(past.kept, past.whole)
    && |past.whole| - |past.kept| <= Resizes(past.whole)
  }

  ghost predicate RetiredFits(s: State, b: BufferId, past: Past) {
    && b < |s.heap| && !InUse(s, b)
    && s.heap[b].capacity == Replay(past.base, past.kept).0
    && Fits(s.heap[b].samples, past)
  }

  ghost predicate BuffersAccounted(s: System) {
    && (forall b :: b in s.retired ==> RetiredFits(s.watcher, b, s.retired[b]))
    && (forall b :: 0 <= b < |s.watcher.heap| && !InUse(s.watcher, b) ==> b in s.retired)
  }

  ghost predicate HasBuffer(s: State, key: Key, b: BufferId) {
    b < |s.heap| && s.heap[b].key == key
  }

  ghost predicate ObjectsAccounted(s: System) {
    && s.objects.Keys == s.watcher.cells.Keys
    && (forall o :: o in s.detached ==> HasBuffer(s.watcher, o.0, s.detached[o]))
  }

  ghost predicate ReaderFits(s: System, reader: Reader) {
    match reader
    case HasState(key, id) => (key in s.objects && s.objects[key] == id) || (key, id) in s.detached
    case HasField(key, buffer) => HasBuffer(s.watcher, key, buffer)
    case Returned(_, samples, past) => Fits(samples, past)
    case _ => true
  }

  ghost predicate SystemInv(s: System) {
    && Inv(s.watcher) && BuffersAccounted(s) && ObjectsAccounted(s)
    && forall r :: ReaderFits(s, ReaderOf(s, r))
  }

  lemma CellFacts(s: State, key: Key)
    requires Inv(s) && key in s.cells
    ensures key in s.traces && s.cells[key].buffer < |s.heap| && s.heap[s.cells[key].buffer].key == key
    ensures var b := s.heap[s.cells[key].buffer];
            b.capacity == Replay(s.traces[key].base, s.traces[key].kept).0 && Fits(b.samples, PastOf(s, key))
  {
    hide Replay, LeavesOutPushes, Resizes;
    assert KeyInv(s, key);
  }

  // ---------------------------------------------------------------------------
  // What a step of the watcher does to buffers
  // ---------------------------------------------------------------------------

  lemma HeapGrows(s: State, a: Action, b: BufferId)
    requires b < |s.heap|
    ensures b < |Do(s, a).heap| && Do(s, a).heap[b].key == s.heap[b].key && Do(s, a).heap[b].capacity == s.heap[b].capacity
  {
    hide LastN;
  }

  predicate PushesInto(s: State, a: Action, b: BufferId) {
    a.Push? && Enabled(s, a) && WorkerOf(s, a.key).buffer == b
  }

  /** A buffer that is not in use changes only by a push from a worker that loaded it before. */
  lemma UnusedBufferStays(s: State, a: Action, b: BufferId)
    requires Inv(s) && b < |s.heap| && !InUse(s, b)
    ensures !InUse(Do(s, a), b)
    ensures Do(s, a).heap[b] ==
              if PushesInto(s, a, b) then s.heap[b].(samples := LastN(s.heap[b].samples + [a.s], s.heap[b].capacity))
              else s.heap[b]
  {
    hide LastN, Inv;
    HeapGrows(s, a, b);
    if KeyOfAction(s, a).Some? && KeyOfAction(s, a).value in s.cells {
      CellFacts(s, KeyOfAction(s, a).value);
    }
    hide Fits;
  }

  /** A buffer leaves use only by a swap or a deletion of its key. */
  lemma UsedBufferStays(s: State, a: Action, b: BufferId)
    requires b < |s.heap| && InUse(s, b) && !InUse(Do(s, a), b)
    ensures Enabled(s, a)
    ensures a == DeleteState(s.heap[b].key) || (a.SwapBuffer? && s.mutex.copied.value.key == s.heap[b].key)
  {
    hide LastN;
    HeapGrows(s, a, b);
  }

  lemma NewBufferIsUsed(s: State, a: Action, b: BufferId)
    requires Inv(s) && |s.heap| <= b < |Do(s, a).heap|
    ensures InUse(Do(s, a), b)
  {
    hide LastN, Inv;
  }

  // ---------------------------------------------------------------------------
  // Every step keeps the invariant
  // ---------------------------------------------------------------------------

  lemma LatePushFits(samples: seq<Sample>, capacity: nat, past: Past, sample: Sample)
    requires Fits(samples, past) && capacity == Replay(past.base, past.kept).0
    ensures Fits(LastN(samples + [sample], capacity), LatePush(past, sample))
    ensures capacity == Replay(past.base, LatePush(past, sample).kept).0
  {
    hide Replay, LeavesOutPushes, Resizes, LastN;
    ReplayAppend(past.base, past.kept, Pushed(sample));
    PushLogged(past.kept, past.whole, sample);
  }

  lemma RetiredPast(s: System, a: Action, b: BufferId)
    requires Inv(s.watcher) && b in s.retired && b < |s.watcher.heap| && !InUse(s.watcher, b)
    ensures b in Watched(s, a).retired
    ensures Watched(s, a).retired[b] == if PushesInto(s.watcher, a, b) then LatePush(s.retired[b], a.s) else s.retired[b]
  {
    hide Inv, LatePush, PastOf, Do;
    if KeyOfAction(s.watcher, a).Some? && KeyOfAction(s.watcher, a).value in s.watcher.cells {
      CellFacts(s.watcher, KeyOfAction(s.watcher, a).value);
    }
    hide Fits;
  }

  lemma RetiredStays(s: System, a: Action, b: BufferId)
    requires Inv(s.watcher) && b in s.retired && RetiredFits(s.watcher, b, s.retired[b])
    ensures b in Watched(s, a).retired && RetiredFits(Do(s.watcher, a), b, Watched(s, a).retired[b])
  {
    hide Inv, Fits, Replay, LastN, PastOf;
    UnusedBufferStays(s.watcher, a, b);
    HeapGrows(s.watcher, a, b);
    RetiredPast(s, a, b);
    if PushesInto(s.watcher, a, b) {
      LatePushFits(s.watcher.heap[b].samples, s.watcher.heap[b].capacity, s.retired[b], a.s);
    }
    hide Watched, PushesInto;
    hide InUse, Do;
  }

  lemma NewlyRetired(s: System, a: Action, b: BufferId)
    requires Inv(s.watcher) && s.objects.Keys == s.watcher.cells.Keys
    requires b < |s.watcher.heap| && InUse(s.watcher, b) && !InUse(Do(s.watcher, a), b)
    ensures b in Watched(s, a).retired && RetiredFits(Do(s.watcher, a), b, Watched(s, a).retired[b])
  {
    hide Inv, Fits, Replay, LastN;
    UsedBufferStays(s.watcher, a, b);
    CellFacts(s.watcher, s.watcher.heap[b].key);
    hide PastOf;
    assert b < |Do(s.watcher, a).heap| && Do(s.watcher, a).heap[b] == s.watcher.heap[b];
    assert b in Watched(s, a).retired && Watched(s, a).retired[b] == PastOf(s.watcher, s.watcher.heap[b].key);
  }

  lemma RetiredComesFrom(s: System, a: Action, b: BufferId)
    requires Inv(s.watcher) && s.objects.Keys == s.watcher.cells.Keys
    requires b in Watched(s, a).retired && b !in s.retired
    ensures b < |s.watcher.heap| && InUse(s.watcher, b) && !InUse(Do(s.watcher, a), b)
  {
    hide Inv, PastOf, LastN;
    if KeyOfAction(s.watcher, a).Some? && KeyOfAction(s.watcher, a).value in s.watcher.cells {
      CellFacts(s.watcher, KeyOfAction(s.watcher, a).value);
    }
    hide Fits;
  }

  lemma BuffersStayAccounted(s: System, a: Action)
    requires Inv(s.watcher) && s.objects.Keys == s.watcher.cells.Keys && BuffersAccounted(s)
    ensures BuffersAccounted(Watched(s, a))
  {
    hide Inv, Do, RetiredFits, InUse;
    var s' := Watched(s, a);
    WatchedIsDone(s, a);
    hide Watched;
    forall b | b in s'.retired ensures RetiredFits(s'.watcher, b, s'.retired[b]) {
      if b in s.retired {
        RetiredStays(s, a, b);
      } else {
        RetiredComesFrom(s, a, b);
        NewlyRetired(s, a, b);
      }
    }
    forall b | 0 <= b < |s'.watcher.heap| && !InUse(s'.watcher, b) ensures b in s'.retired {
      if b >= |s.watcher.heap| {
        NewBufferIsUsed(s.watcher, a, b);
      } else if InUse(s.watcher, b) {
        NewlyRetired(s, a, b);
      } else {
        RetiredStays(s, a, b);
      }
    }
  }

  lemma WatchedIsDone(s: System, a: Action)
    ensures Watched(s, a).watcher == Do(s.watcher, a) && Watched(s, a).readers == s.readers
  {
    hide PastOf;
  }

  lemma ObjectsStayAccounted(s: System, a: Action)
    requires Inv(s.watcher) && ObjectsAccounted(s)
    ensures ObjectsAccounted(Watched(s, a))
  {
    hide Inv, LastN, PastOf, LatePush;
    forall o | o in s.detached ensures HasBuffer(Do(s.watcher, a), o.0, s.detached[o]) {
      HeapGrows(s.watcher, a, s.detached[o]);
    }
    if a.DeleteState? && a.key in s.watcher.cells {
      CellFacts(s.watcher, a.key);
      HeapGrows(s.watcher, a, s.watcher.cells[a.key].buffer);
    }
    hide Fits;
    KeysStay(s, a);
    DetachedGrows(s, a);
    hide Do, Watched;
  }

  lemma KeysStay(s: System, a: Action)
    requires s.objects.Keys == s.watcher.cells.Keys
    ensures Watched(s, a).objects.Keys == Watched(s, a).watcher.cells.Keys
  {
    CellsChange(s.watcher, a);
    WatchedIsDone(s, a);
    hide Do, LastN, PastOf, LatePush;
  }

  lemma CellsChange(s: State, a: Action)
    ensures Do(s, a).cells.Keys ==
              if !Enabled(s, a) then s.cells.Keys
              else if a.EnsureState? then s.cells.Keys + {a.key}
              else if a.DeleteState? then s.cells.Keys - {a.key}
              else s.cells.Keys
  {
    hide LastN;
  }

  lemma DetachedGrows(s: System, a: Action)
    ensures Watched(s, a).watcher == Do(s.watcher, a)
    ensures forall o :: o in Watched(s, a).detached ==>
              || (o in s.detached && Watched(s, a).detached[o] == s.detached[o])
              || (a.DeleteState? && o.0 == a.key && a.key in s.watcher.cells
                  && Watched(s, a).detached[o] == s.watcher.cells[a.key].buffer)
    ensures forall o :: o in s.detached ==> o in Watched(s, a).detached
    ensures forall key :: key in s.objects && (key !in Watched(s, a).objects || Watched(s, a).objects[key] != s.objects[key]) ==>
              key !in s.watcher.cells || (key, s.objects[key]) in Watched(s, a).detached
  {
    WatchedIsDone(s, a);
    hide Do, PastOf, LatePush, Enabled;
  }

  lemma ReaderStaysFit(s: System, a: Action, reader: Reader)
    requires ObjectsAccounted(s) && ReaderFits(s, reader)
    ensures ReaderFits(Watched(s, a), reader)
  {
    DetachedGrows(s, a);
    if reader.HasField? {
      HeapGrows(s.watcher, a, reader.buffer);
    }
    hide Watched, Do, Fits;
  }

  lemma WatchKeepsInv(s: System, a: Action)
    requires SystemInv(s)
    ensures SystemInv(Watched(s, a))
  {
    ActionsKeepInv(s.watcher, a);
    WatchedIsDone(s, a);
    BuffersStayAccounted(s, a);
    ObjectsStayAccounted(s, a);
    hide Watched, Do, Inv, BuffersAccounted, ObjectsAccounted, ReaderFits;
    forall r ensures ReaderFits(Watched(s, a), ReaderOf(Watched(s, a), r)) {
      ReaderStaysFit(s, a, ReaderOf(s, r));
    }
  }

  lemma ReaderStepFits(s: System, step: Step)
    requires SystemInv(s) && !step.Watch?
    ensures ReaderFits(Take(s, step), ReaderOf(Take(s, step), step.reader))
  {
    var reader := ReaderOf(s, step.reader);
    assert ReaderFits(s, reader);
    hide Fits, Inv;
    match step
    case FindState(_, _) =>
    case LoadField(_) =>
      if reader.HasState? && reader.key in s.watcher.cells {
        CellFacts(s.watcher, reader.key);
      }
    case TakeSamples(_) =>
      if reader.HasField? && reader.buffer < |s.watcher.heap| {
        if reader.buffer in s.retired {
          assert RetiredFits(s.watcher, reader.buffer, s.retired[reader.buffer]);
        } else if reader.key in s.watcher.cells {
          assert InUse(s.watcher, reader.buffer);
          CellFacts(s.watcher, reader.key);
        }
      }
  }

  lemma StepKeepsInv(s: System, step: Step)
    requires SystemInv(s)
    ensures SystemInv(Take(s, step))
  {
    if step.Watch? {
      WatchKeepsInv(s, step.action);
    } else {
      ReaderStepFits(s, step);
      OthersUntouched(s, step);
      hide Take, Inv, Fits, InUse, RetiredFits;
      var s' := Take(s, step);
      forall r ensures ReaderFits(s', ReaderOf(s', r)) {
        assert ReaderFits(s, ReaderOf(s, r));
      }
    }
  }

  lemma OthersUntouched(s: System, step: Step)
    requires !step.Watch?
    ensures Take(s, step) == s.(readers := Take(s, step).readers)
    ensures forall r :: r != step.reader ==> ReaderOf(Take(s, step), r) == ReaderOf(s, r)
  {
    hide PastOf, FieldOf;
  }

  lemma BeginsFit(capacity: int)
    ensures SystemInv(Begin(capacity))
  {
    RunsKeepInv(capacity, []);
    hide Inv;
  }

  lemma {:induction false} ProceedKeepsInv(capacity: int, steps: seq<Step>)
    ensures SystemInv(Proceed(Begin(capacity), steps))
  {
    hide SystemInv, Take;
    if steps == [] {
      BeginsFit(capacity);
    } else {
      ProceedKeepsInv(capacity, steps[..|steps| - 1]);
      StepKeepsInv(Proceed(Begin(capacity), steps[..|steps| - 1]), steps[|steps| - 1]);
    }
  }

  // ---------------------------------------------------------------------------
  // The pasts are what the actions did
  // ---------------------------------------------------------------------------

  /** What the watcher did, without the readers. */
  function ActionsOf(steps: seq<Step>): seq<Action> {
    if steps == [] then []
    else
      var last := steps[|steps| - 1];
      ActionsOf(steps[..|steps| - 1]) + if last.Watch? then [last.action] else []
  }

  /** At some moment the past was the PVC's story. */
  ghost predicate Told(capacity: int, actions: seq<Action>, key: Key, past: Past) {
    exists m :: 0 <= m <= |actions| &&
      Story(capacity, actions[..m], key) == Some(Chapter(past.uid, past.base, past.whole))
  }

  /** The story is the past and resizes after it. */
  predicate OnlyResizedSince(past: Past, c: Chapter) {
    && c.uid == past.uid && c.base == past.base && past.whole <= c.log
    && forall i :: |past.whole| <= i < |c.log| ==> c.log[i].Resized?
  }

  /** The last push of the past came after a resize, from a worker that had loaded the buffer before it. */
  ghost predicate ToldLate(capacity: int, actions: seq<Action>, key: Key, past: Past) {
    && |past.whole| > 0 && past.whole[|past.whole| - 1].Pushed?
    && var sooner := past.(whole := past.whole[..|past.whole| - 1]);
    && Told(capacity, actions, key, sooner)
    && exists n, c :: 0 <= n <= |actions| && OnlyResizedSince(sooner, c) &&
         Story(capacity, actions[..n], key) == Some(c.(log := c.log + [past.whole[|past.whole| - 1]]))
  }

  /**
   The past is the whole of what happened to the PVC from the step that gave it its UID up to
   some moment, or all of it but the resizes right before its last push.
   */
  ghost predicate Happened(capacity: int, actions: seq<Action>, key: Key, past: Past) {
    Told(capacity, actions, key, past) || ToldLate(capacity, actions, key, past)
  }

  ghost predicate RetiredHappened(capacity: int, actions: seq<Action>, s: System, b: BufferId) {
    b in s.retired && b < |s.watcher.heap| ==>
      var key := s.watcher.heap[b].key;
      && Happened(capacity, actions, key, s.retired[b])
      && (WorkerOf(s.watcher, key) == Loaded(b) ==>
            && Told(capacity, actions, key, s.retired[b])
            && Logged(s.watcher, key).Some?
            && OnlyResizedSince(s.retired[b], Logged(s.watcher, key).value))
  }

  ghost predicate ReaderHappened(capacity: int, actions: seq<Action>, reader: Reader) {
    reader.Returned? ==> Happened(capacity, actions, reader.key, reader.past)
  }

  ghost predicate PastsHappened(capacity: int, actions: seq<Action>, s: System) {
    && s.watcher == Execute(Start(capacity), actions)
    && (forall b :: RetiredHappened(capacity, actions, s, b))
    && (forall r :: ReaderHappened(capacity, actions, ReaderOf(s, r)))
  }

  lemma StillHappened(capacity: int, actions: seq<Action>, a: Action, key: Key, past: Past)
    ensures Told(capacity, actions, key, past) ==> Told(capacity, actions + [a], key, past)
    ensures Happened(capacity, actions, key, past) ==> Happened(capacity, actions + [a], key, past)
  {
    hide Story;
    var more := actions + [a];
    assert forall m :: 0 <= m <= |actions| ==> more[..m] == actions[..m];
    StillTold(capacity, actions, a, key, past);
    if |past.whole| > 0 {
      StillTold(capacity, actions, a, key, past.(whole := past.whole[..|past.whole| - 1]));
    }
    hide Told;
    if ToldLate(capacity, actions, key, past) {
      var sooner := past.(whole := past.whole[..|past.whole| - 1]);
      var n, c :| 0 <= n <= |actions| && OnlyResizedSince(sooner, c) &&
        Story(capacity, actions[..n], key) == Some(c.(log := c.log + [past.whole[|past.whole| - 1]]));
      hide OnlyResizedSince;
      assert Story(capacity, more[..n], key) == Some(c.(log := c.log + [past.whole[|past.whole| - 1]]));
      assert ToldLate(capacity, more, key, past);
    }
  }

  lemma StillTold(capacity: int, actions: seq<Action>, a: Action, key: Key, past: Past)
    ensures Told(capacity, actions, key, past) ==> Told(capacity, actions + [a], key, past)
  {
    hide Story;
    var more := actions + [a];
    if Told(capacity, actions, key, past) {
      var m :| 0 <= m <= |actions| &&
        Story(capacity, actions[..m], key) == Some(Chapter(past.uid, past.base, past.whole));
      assert more[..m] == actions[..m];
    }
  }

  /** What is recorded of a PVC is told. */
  lemma LoggedIsTold(capacity: int, actions: seq<Action>, s: State, key: Key)
    requires s == Execute(Start(capacity), actions) && key in s.cells
    ensures Told(capacity, actions, key, PastOf(s, key))
  {
    TracesTellTheStory(capacity, actions, key);
    hide Story, Execute;
    assert actions[..|actions|] == actions;
  }

  /** A worker that loaded a buffer which has left use had loaded it before. */
  lemma LoadedBefore(s: State, a: Action, b: BufferId)
    requires Inv(s) && b < |s.heap| && !InUse(s, b) && WorkerOf(Do(s, a), s.heap[b].key) == Loaded(b)
    ensures WorkerOf(s, s.heap[b].key) == Loaded(b) && !PushesInto(s, a, b)
    ensures Logged(Do(s, a), s.heap[b].key) == Logged(s, s.heap[b].key)
      || (Enabled(s, a) && Logged(s, s.heap[b].key).Some? && Logged(Do(s, a), s.heap[b].key) ==
            Some(Logged(s, s.heap[b].key).value.(log := Logged(s, s.heap[b].key).value.log + [Resized(s.retention)])))
  {
    var key := s.heap[b].key;
    assert KeyInv(s, key);
    if a.Push? {
      assert KeyInv(s, a.key);
    }
    StoryGoesOn(s, a, key);
    hide Inv, KeyInv, Logged, LastN, Replay;
  }

  lemma RetiredStaysTold(capacity: int, actions: seq<Action>, s: System, a: Action, b: BufferId)
    requires s.watcher == Execute(Start(capacity), actions) && Inv(s.watcher)
    requires b in s.retired && RetiredFits(s.watcher, b, s.retired[b]) && !PushesInto(s.watcher, a, b)
    requires RetiredHappened(capacity, actions, s, b)
    ensures RetiredHappened(capacity, actions + [a], Watched(s, a), b)
  {
    var key := s.watcher.heap[b].key;
    RetiredPast(s, a, b);
    WatchedIsDone(s, a);
    HeapGrows(s.watcher, a, b);
    StillHappened(capacity, actions, a, key, s.retired[b]);
    if WorkerOf(Do(s.watcher, a), key) == Loaded(b) {
      LoadedBefore(s.watcher, a, b);
    }
    hide Watched, Do, Inv, Happened, Told, Logged, Execute, InUse, WorkerOf, PushesInto, Fits, Replay, Enabled;
  }

  /** The last push into a buffer that has left use. */
  lemma LatePushTold(capacity: int, actions: seq<Action>, s: System, a: Action, b: BufferId)
    requires s.watcher == Execute(Start(capacity), actions) && Inv(s.watcher)
    requires b in s.retired && RetiredFits(s.watcher, b, s.retired[b]) && PushesInto(s.watcher, a, b)
    requires RetiredHappened(capacity, actions, s, b)
    ensures RetiredHappened(capacity, actions + [a], Watched(s, a), b)
  {
    var key, past := s.watcher.heap[b].key, s.retired[b];
    assert KeyInv(s.watcher, a.key);
    assert a.key == key && WorkerOf(Do(s.watcher, a), key).Idle?;
    RetiredPast(s, a, b);
    WatchedIsDone(s, a);
    HeapGrows(s.watcher, a, b);
    StoryGoesOn(s.watcher, a, key);
    var more := actions + [a];
    assert more[..|actions|] == actions && more[..|more|] == more;
    assert Execute(Start(capacity), more) == Do(s.watcher, a);
    TracesTellTheStory(capacity, more, key);
    StillTold(capacity, actions, a, key, past);
    hide Watched, Do, Inv, KeyInv, Told, Logged, Execute, InUse, Fits, Replay, Story;
    var late, c := LatePush(past, a.s), Logged(s.watcher, key).value;
    assert late.whole[..|late.whole| - 1] == past.whole;
    var sooner := late.(whole := late.whole[..|late.whole| - 1]);
    SoonerTold(capacity, more, key, past, sooner);
    assert OnlyResizedSince(sooner, c);
    assert Story(capacity, more[..|more|], key) == Some(c.(log := c.log + [late.whole[|late.whole| - 1]]));
    assert ToldLate(capacity, more, key, late);
  }

  lemma SoonerTold(capacity: int, actions: seq<Action>, key: Key, past: Past, sooner: Past)
    requires Told(capacity, actions, key, past)
    requires sooner.uid == past.uid && sooner.base == past.base && sooner.whole == past.whole
    ensures Told(capacity, actions, key, sooner)
  {
    hide Story;
  }

  lemma NewlyRetiredTold(capacity: int, actions: seq<Action>, s: System, a: Action, b: BufferId)
    requires s.watcher == Execute(Start(capacity), actions) && Inv(s.watcher)
    requires s.objects.Keys == s.watcher.cells.Keys
    requires b < |s.watcher.heap| && InUse(s.watcher, b) && !InUse(Do(s.watcher, a), b)
    ensures RetiredHappened(capacity, actions + [a], Watched(s, a), b)
  {
    var key := s.watcher.heap[b].key;
    UsedBufferStays(s.watcher, a, b);
    CellFacts(s.watcher, key);
    LoggedIsTold(capacity, actions, s.watcher, key);
    StillTold(capacity, actions, a, key, PastOf(s.watcher, key));
    StoryGoesOn(s.watcher, a, key);
    HeapGrows(s.watcher, a, b);
    hide Inv, Fits, Replay, LastN, Told, Execute, Story;
    assert Watched(s, a).retired[b] == PastOf(s.watcher, key);
    assert WorkerOf(Do(s.watcher, a), key) == Loaded(b) ==> a.SwapBuffer?;
  }

  lemma WatchKeepsPasts(capacity: int, actions: seq<Action>, s: System, a: Action)
    requires SystemInv(s) && PastsHappened(capacity, actions, s)
    ensures PastsHappened(capacity, actions + [a], Watched(s, a))
  {
    WatchedIsDone(s, a);
    var s', more := Watched(s, a), actions + [a];
    assert more[..|actions|] == actions;
    assert Execute(Start(capacity), more) == Do(s.watcher, a);
    hide Watched, Do, Inv, Execute, InUse, RetiredFits, ReaderFits, PushesInto;
    forall b ensures RetiredHappened(capacity, more, s', b) {
      assert RetiredHappened(capacity, actions, s, b);
      if b in s.retired {
        assert RetiredFits(s.watcher, b, s.retired[b]);
        if PushesInto(s.watcher, a, b) {
          LatePushTold(capacity, actions, s, a, b);
        } else {
          RetiredStaysTold(capacity, actions, s, a, b);
        }
      } else if b in s'.retired {
        RetiredComesFrom(s, a, b);
        NewlyRetiredTold(capacity, actions, s, a, b);
      }
    }
    hide RetiredHappened, Happened;
    forall r ensures ReaderHappened(capacity, more, ReaderOf(s', r)) {
      var reader := ReaderOf(s, r);
      assert ReaderHappened(capacity, actions, reader);
      if reader.Returned? {
        StillHappened(capacity, actions, a, reader.key, reader.past);
      }
    }
  }

  lemma ReaderKeepsPasts(capacity: int, actions: seq<Action>, s: System, step: Step)
    requires SystemInv(s) && PastsHappened(capacity, actions, s) && !step.Watch?
    ensures PastsHappened(capacity, actions, Take(s, step))
  {
    OthersUntouched(s, step);
    var s', reader := Take(s, step), ReaderOf(s, step.reader);
    assert ReaderFits(s, reader);
    assert ReaderHappened(capacity, actions, reader);
    if step.TakeSamples? && reader.HasField? && reader.buffer < |s.watcher.heap| {
      assert RetiredHappened(capacity, actions, s, reader.buffer);
      if reader.buffer !in s.retired && reader.key in s.watcher.cells {
        LoggedIsTold(capacity, actions, s.watcher, reader.key);
      }
    }
    hide Inv, Execute, InUse, RetiredFits, ReaderFits, Happened, Told, PastOf;
    assert ReaderHappened(capacity, actions, ReaderOf(s', step.reader)) by {
      hide FieldOf;
    }
    hide Take;
    forall b ensures RetiredHappened(capacity, actions, s', b) {
      assert RetiredHappened(capacity, actions, s, b);
    }
    hide ReaderHappened;
    forall r ensures ReaderHappened(capacity, actions, ReaderOf(s', r)) {
      assert ReaderHappened(capacity, actions, ReaderOf(s, r));
    }
  }

  lemma {:induction false} RunsKeepPasts(capacity: int, steps: seq<Step>)
    ensures PastsHappened(capacity, ActionsOf(steps), Proceed(Begin(capacity), steps))
  {
    if steps != [] {
      var front, last := steps[..|steps| - 1], steps[|steps| - 1];
      RunsKeepPasts(capacity, front);
      ProceedKeepsInv(capacity, front);
      var s := Proceed(Begin(capacity), front);
      hide SystemInv, PastsHappened, Watched;
      if last.Watch? {
        WatchKeepsPasts(capacity, ActionsOf(front), s, last.action);
      } else {
        ReaderKeepsPasts(capacity, ActionsOf(front), s, last);
        assert ActionsOf(front) + [] == ActionsOf(front);
      }
    }
  }

  // ---------------------------------------------------------------------------
  // What a reader gets
  // ---------------------------------------------------------------------------

  /**
   Under every interleaving, what GetSnapshot returns for a tracked PVC is what the sequential
   watcher would hold after all the resizes and some of the pushes that the PVC saw under one
   UID, in their order, missing at most as many pushes as there were resizes - also when the
   buffer was replaced, or the PVC deleted, while the reader was on its way. What the PVC saw is
   read off the actions: see `Happened`.
   */
  lemma ReadersUnderConcurrency(capacity: int, steps: seq<Step>, r: nat)
    requires ReaderOf(Proceed(Begin(capacity), steps), r).Returned?
    ensures var returned := ReaderOf(Proceed(Begin(capacity), steps), r);
            var past := returned.past;
            && returned.samples == SequentialSnapshot(past.base, returned.key, past.uid, past.kept)
            && Subsequence(past.kept, past.whole)
            && Resizes(past.kept) == Resizes(past.whole)
            && |past.whole| - |past.kept| <= Resizes(past.whole)
            && Happened(capacity, ActionsOf(steps), returned.key, past)
  {
    ProceedKeepsInv(capacity, steps);
    RunsKeepPasts(capacity, steps);
    var s := Proceed(Begin(capacity), steps);
    var returned := ReaderOf(s, r);
    assert ReaderFits(s, returned);
    assert ReaderHappened(capacity, ActionsOf(steps), returned);
    hide Proceed, Inv, Happened;
    var past := returned.past;
    ReplayIsSequential(NewPVC(past.base, returned.key, past.uid), returned.key, past.uid, past.kept);
  }

  /** A reader can always go on: its state has a buffer field, and the buffer has a past. */
  lemma ReadersAreNeverStuck(capacity: int, steps: seq<Step>, r: nat)
    ensures var s := Proceed(Begin(capacity), steps);
            && (ReaderOf(s, r).HasState? ==> ReaderOf(Take(s, LoadField(r)), r).HasField?)
            && (ReaderOf(s, r).HasField? ==> ReaderOf(Take(s, TakeSamples(r)), r).Returned?)
  {
    ProceedKeepsInv(capacity, steps);
    var s := Proceed(Begin(capacity), steps);
    assert ReaderFits(s, ReaderOf(s, r));
    hide Proceed, Inv, Fits, PastOf;
  }
}
