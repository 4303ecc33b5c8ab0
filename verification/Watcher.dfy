/** The PVC watcher: a map of per-PVC states, each owning a ring buffer, updated in place. */
module Watcher {

  import opened Growth
  import opened Keys
  import opened Options
  import opened RingBuffers
  import opened Times
  import opened WatcherModel

  const DEFAULT_SAMPLE_INTERVAL := 30 * SECOND

  /** A new buffer holding as much of the old one's end as fits. */
  method ResizedBuffer(buffer: RingBuffer, retention: nat) returns (resized: RingBuffer)
    requires buffer.Valid() && retention >= 1
    ensures fresh(resized) && fresh(resized.buf)
    ensures resized.Valid() && resized.capacity == retention
    ensures resized.Contents() == LastN(buffer.Contents(), retention)
  {
    hide Oldest;
    var snapshot := buffer.Snapshot();
    if |snapshot| > retention {
      snapshot := snapshot[|snapshot| - retention..];
    }
    resized := new RingBuffer(retention);
    for i := 0 to |snapshot|
      invariant fresh(resized) && fresh(resized.buf)
      invariant resized.Valid() && resized.capacity == retention
      invariant resized.Contents() == snapshot[..i]
    {
      resized.Push(snapshot[i]);
      assert snapshot[..i + 1] == snapshot[..i] + [snapshot[i]];
    }
    assert snapshot[..|snapshot|] == snapshot;
  }

  class PVCState {
    var buffer: RingBuffer
    var lastUID: UID
    var lastCapacityBytes: int

    ghost predicate Valid()
      reads this, buffer
    {
      buffer.Valid()
    }

    ghost function View(): PVCView
      requires Valid()
      reads this, buffer, buffer.buf
    {
      PVCView(lastUID, buffer.Contents(), lastCapacityBytes)
    }

    constructor (buffer: RingBuffer, uid: UID)
      requires buffer.Valid()
      ensures this.buffer == buffer && Valid()
      ensures View() == PVCView(uid, buffer.Contents(), 0)
    {
      this.buffer := buffer;
      lastUID := uid;
      lastCapacityBytes := 0;
    }

    /** state.Buffer.Push */
    method Record(ghost pvc: PVCView, ghost retention: nat, s: Sample)
      requires Shows(pvc, this, retention)
      modifies buffer, buffer.buf
      ensures Shows(pvc.(samples := LastN(pvc.samples + [s], retention)), this, retention)
    {
      hide LastN, Oldest;
      buffer.Push(s);
    }

    method SetCapacity(ghost pvc: PVCView, ghost retention: nat, capacityBytes: int)
      requires Shows(pvc, this, retention)
      modifies this`lastCapacityBytes
      ensures Shows(pvc.(lastCapacityBytes := capacityBytes), this, retention)
    {
      hide Oldest;
      lastCapacityBytes := capacityBytes;
    }

    /** state.Buffer = resized */
    method Resize(ghost pvc: PVCView, ghost previous: nat, retention: nat)
      requires Shows(pvc, this, previous) && retention >= 1
      modifies this`buffer
      ensures fresh(buffer) && fresh(buffer.buf)
      ensures Shows(pvc.(samples := LastN(pvc.samples, retention)), this, retention)
    {
      hide LastN, Oldest;
      buffer := ResizedBuffer(buffer, retention);
    }

    /** Forgets the samples of a PVC that was deleted and recreated. */
    method Restart(ghost pvc: PVCView, ghost retention: nat, uid: UID)
      requires Shows(pvc, this, retention)
      modifies this`lastUID, buffer
      ensures Shows(pvc.(lastUID := uid, samples := []), this, retention)
    {
      hide Oldest;
      buffer.Reset();
      lastUID := uid;
    }
  }

  /** The state of a tracked key looks as the abstract state says. */
  ghost predicate Shows(pvc: PVCView, state: PVCState, capacity: nat)
    reads state, state.buffer, state.buffer.buf
  {
    state.Valid() && state.buffer.capacity == capacity && state.View() == pvc
  }

  class PVCWatcher {
    var pvcStates: map<Key, PVCState>
    var retention: nat
    var sampleInterval: int
    /** the watcher's abstract state */
    ghost var view: WatcherView
    /** every object the watcher owns, and the key it belongs to */
    ghost var owner: map<object, Key>

    ghost predicate Owns(key: Key, state: PVCState)
      reads this`owner, state`buffer
    {
      && state in owner && owner[state] == key
      && state.buffer in owner && owner[state.buffer] == key
      && state.buffer.buf in owner && owner[state.buffer.buf] == key
    }

    ghost predicate Valid()
      reads this, owner.Keys
    {
      && this !in owner && retention >= 1 && retention == view.retention
      && pvcStates.Keys == view.pvcs.Keys
      && (forall k :: k in pvcStates ==>
            pvcStates[k] in owner && Owns(k, pvcStates[k]))
      && (forall k :: k in pvcStates ==> Shows(view.pvcs[k], pvcStates[k], retention))
    }

    constructor (capacity: int)
      ensures Valid() && owner == map[] && sampleInterval == 30 * SECOND
      ensures view == Initial(capacity)
    {
      pvcStates := map[];
      retention := if capacity < 1 then DEFAULT_RETENTION else capacity;
      sampleInterval := DEFAULT_SAMPLE_INTERVAL;
      view := Initial(capacity);
      owner := map[];
    }

    ghost method Claim(key: Key, footprint: set<object>)
      requires Valid() && footprint !! owner.Keys + {this}
      modifies this`owner
      ensures Valid() && owner.Keys == old(owner.Keys) + footprint
      ensures forall o :: o in footprint ==> owner[o] == key
    {
      hide Shows;
      owner := map o | o in owner.Keys + footprint :: if o in owner then owner[o] else key;
    }

    /** r.pvcStates[key] = state, for a state nobody owns yet. */
    method Register(key: Key, state: PVCState, ghost pvc: PVCView)
      requires Valid() && key !in pvcStates
      requires {state, state.buffer, state.buffer.buf} !! owner.Keys + {this}
      requires Shows(pvc, state, retention)
      modifies this`pvcStates, this`owner, this`view
      ensures Valid() && owner.Keys == old(owner.Keys) + {state, state.buffer, state.buffer.buf}
      ensures pvcStates == old(pvcStates)[key := state]
      ensures view == old(view).(pvcs := old(view).pvcs[key := pvc])
    {
      hide Shows;
      Claim(key, {state, state.buffer, state.buffer.buf});
      pvcStates := pvcStates[key := state];
      view := view.(pvcs := view.pvcs[key := pvc]);
    }

    method Create(key: Key, uid: UID) returns (state: PVCState)
      requires Valid() && key !in pvcStates
      modifies this`pvcStates, this`owner, this`view
      ensures Valid() && fresh(owner.Keys - old(owner.Keys))
      ensures pvcStates == old(pvcStates)[key := state]
      ensures view == old(view).(pvcs := old(view).pvcs[key := PVCView(uid, [], 0)])
    {
      hide PVCState.View, PVCState.Valid;
      var buffer := new RingBuffer(retention);
      state := new PVCState(buffer, uid);
      Register(key, state, PVCView(uid, [], 0));
    }

    method Restart(ghost key: Key, state: PVCState, uid: UID)
      requires Valid() && key in pvcStates && pvcStates[key] == state
      modifies state`lastUID, state.buffer, this`view
      ensures Valid()
      ensures view == old(view).(pvcs := old(view).pvcs[
                key := old(view).pvcs[key].(lastUID := uid, samples := [])])
    {
      hide Shows;
      ghost var pvc := view.pvcs[key];
      state.Restart(pvc, retention, uid);
      view := view.(pvcs := view.pvcs[key := pvc.(lastUID := uid, samples := [])]);
    }

    /** Creates the state for a new PVC; forgets the samples of one that was recreated. */
    method EnsureState(key: Key, uid: UID) returns (state: PVCState)
      requires Valid()
      modifies this, owner.Keys
      ensures Valid() && fresh(owner.Keys - old(owner.Keys))
      ensures key in pvcStates && pvcStates[key] == state
      ensures {state, state.buffer, state.buffer.buf} <= owner.Keys
      ensures sampleInterval == old(sampleInterval)
      ensures view == old(view).(pvcs := old(view).pvcs[key := Ensure(old(view), key, uid)])
    {
      hide Oldest;
      if key !in pvcStates {
        state := Create(key, uid);
        return;
      }
      state := pvcStates[key];
      if state.lastUID != uid {
        Restart(key, state, uid);
      }
    }

    /** state.Buffer.Push for the state of a tracked key. */
    method Record(ghost key: Key, state: PVCState, s: Sample)
      requires Valid() && key in pvcStates && pvcStates[key] == state
      modifies state.buffer, state.buffer.buf, this`view
      ensures Valid()
      ensures var pvc := old(view).pvcs[key];
              view == old(view).(pvcs := old(view).pvcs[
                key := pvc.(samples := LastN(pvc.samples + [s], old(view).retention))])
    {
      hide LastN, Shows;
      ghost var pvc := view.pvcs[key];
      state.Record(pvc, retention, s);
      view := view.(pvcs := view.pvcs[key := pvc.(samples := LastN(pvc.samples + [s], retention))]);
    }

    method SetCapacity(ghost key: Key, state: PVCState, capacityBytes: int)
      requires Valid() && key in pvcStates && pvcStates[key] == state
      modifies state`lastCapacityBytes, this`view
      ensures Valid()
      ensures view == old(view).(pvcs := old(view).pvcs[
                key := old(view).pvcs[key].(lastCapacityBytes := capacityBytes)])
    {
      hide Shows;
      ghost var pvc := view.pvcs[key];
      state.SetCapacity(pvc, retention, capacityBytes);
      view := view.(pvcs := view.pvcs[key := pvc.(lastCapacityBytes := capacityBytes)]);
    }

    method DeleteState(key: Key)
      requires Valid()
      modifies this`pvcStates, this`view
      ensures Valid()
      ensures view == old(view).(pvcs := old(view).pvcs - {key})
    {
      hide Shows;
      if key in pvcStates {
        pvcStates := pvcStates - {key};
      }
      view := view.(pvcs := view.pvcs - {key});
    }

    /** Reconcile, given what the API server says about the PVC and what the metrics backend answers. */
    method Reconcile(key: Key, pvc: Lookup, usage: Option<Usage>, now: int) returns (requeueAfter: Option<int>)
      requires Valid()
      modifies this, owner.Keys
      ensures Valid() && fresh(owner.Keys - old(owner.Keys))
      ensures view == Step(old(view), ReconcileEvent(key, pvc, usage, now))
      ensures requeueAfter == if !pvc.Found? then None
                              else if old(sampleInterval) > 0 then Some(old(sampleInterval)) else Some(30 * SECOND)
      ensures sampleInterval == old(sampleInterval)
    {
      hide LastN, PVCWatcher.Valid;
      match pvc
      case Failed =>
        return None;
      case NotFound =>
        DeleteState(key);
        return None;
      case Found(uid, requested) =>
        var state := EnsureState(key, uid);
        requeueAfter := Some(if sampleInterval <= 0 then DEFAULT_SAMPLE_INTERVAL else sampleInterval);
        match usage
        case None =>
          return;
        case Some(u) =>
          Record(key, state, Sample(now, u.usedBytes));
          var capacityBytes := u.capacityBytes;
          if capacityBytes == 0 && requested.Some? {
            capacityBytes := requested.value;
          }
          SetCapacity(key, state, capacityBytes);
    }

    method BackfillFromRange(key: Key, uid: UID, points: Option<seq<Sample>>)
      requires Valid()
      modifies this, owner.Keys
      ensures Valid() && fresh(owner.Keys - old(owner.Keys))
      ensures view == Step(old(view), Backfilled(key, uid, points))
    {
      hide LastN, PVCWatcher.Valid;
      var state := EnsureState(key, uid);
      if points == None {
        return;
      }
      ghost var ensured, objects := view, owner.Keys;
      ghost var before := Ensure(old(view), key, uid).samples;
      for i := 0 to |points.value|
        invariant Valid() && owner.Keys == objects
        invariant {state, state.buffer, state.buffer.buf} <= owner.Keys
        invariant key in pvcStates && pvcStates[key] == state
        invariant view == ensured.(pvcs := ensured.pvcs[key :=
          ensured.pvcs[key].(samples := PushAll(before, points.value[..i], ensured.retention))])
      {
        Record(key, state, points.value[i]);
        assert points.value[..i + 1][..i] == points.value[..i];
      }
      assert points.value[..|points.value|] == points.value;
    }

    method GetSnapshot(key: Key) returns (samples: seq<Sample>)
      requires Valid()
      ensures samples == if key in view.pvcs then view.pvcs[key].samples else []
    {
      if key !in pvcStates {
        return [];
      }
      samples := pvcStates[key].buffer.Snapshot();
    }

    method GetLatestCapacity(key: Key) returns (capacity: int, known: bool)
      requires Valid()
      ensures known <==> key in view.pvcs && view.pvcs[key].lastCapacityBytes > 0
      ensures capacity == if known then view.pvcs[key].lastCapacityBytes else 0
    {
      if key !in pvcStates || pvcStates[key].lastCapacityBytes <= 0 {
        return 0, false;
      }
      return pvcStates[key].lastCapacityBytes, true;
    }

    /**
     Configure's invariant: the keys still to be resized have buffers of the previous
     retention, the others already look as they will at the end.
     */
    ghost predicate Resizing(pending: set<Key>, previous: WatcherView)
      reads this, owner.Keys
    {
      && this !in owner && retention >= 1
      && pvcStates.Keys == previous.pvcs.Keys
      && (forall k :: k in pvcStates ==> pvcStates[k] in owner && Owns(k, pvcStates[k]))
      && (forall k :: k in pvcStates && k in pending ==>
            Shows(previous.pvcs[k], pvcStates[k], previous.retention))
      && (forall k :: k in pvcStates && k !in pending ==>
            Shows(Resize(previous.pvcs, retention)[k], pvcStates[k], retention))
    }

    /** One round of Configure's loop. */
    method ResizeState(ghost key: Key, state: PVCState, ghost pending: set<Key>, ghost previous: WatcherView)
      requires Resizing(pending, previous)
      requires key in pending && key in pvcStates && pvcStates[key] == state
      modifies this`owner, state`buffer
      ensures Resizing(pending - {key}, previous) && fresh(owner.Keys - old(owner.Keys))
      ensures old(owner.Keys) <= owner.Keys
    {
      hide LastN, Shows;
      state.Resize(previous.pvcs[key], previous.retention, retention);
      ghost var footprint: set<object> := {state.buffer, state.buffer.buf};
      owner := map o | o in owner.Keys + footprint :: if o in owner then owner[o] else key;
    }

    method SetSampleInterval(interval: int)
      requires Valid()
      modifies this`sampleInterval
      ensures Valid() && retention == view.retention
      ensures sampleInterval == if interval <= 0 then 30 * SECOND else interval
    {
      hide Shows;
      sampleInterval := if interval <= 0 then DEFAULT_SAMPLE_INTERVAL else interval;
    }

    method StartResizing(newRetention: nat)
      requires Valid() && newRetention >= 1
      modifies this`retention
      ensures pvcStates.Values <= owner.Keys
      ensures retention == newRetention && Resizing(pvcStates.Keys, view)
    {
      hide Shows;
      retention := newRetention;
    }

    ghost method FinishResizing()
      requires Resizing({}, view)
      modifies this`view
      ensures Valid() && view == WatcherView(retention, Resize(old(view).pvcs, retention))
    {
      hide Shows, LastN;
      view := WatcherView(retention, Resize(view.pvcs, retention));
    }

    /** Configure; the metrics client it also swaps is not part of the model. */
    method Configure(requestedRetention: int, interval: int)
      requires Valid()
      modifies this, owner.Keys
      ensures Valid() && fresh(owner.Keys - old(owner.Keys))
      ensures view == Step(old(view), Configured(requestedRetention))
      ensures sampleInterval == if interval <= 0 then 30 * SECOND else interval
    {
      hide LastN, PVCWatcher.Valid, PVCWatcher.Resizing;
      SetSampleInterval(interval);
      var newRetention := if requestedRetention < 1 then DEFAULT_RETENTION else requestedRetention;
      if newRetention == retention {
        return;
      }
      StartResizing(newRetention);
      var todo := pvcStates.Keys;
      ghost var states, objects, newInterval := pvcStates, owner.Keys, sampleInterval;
      while todo != {}
        invariant Resizing(todo, view) && sampleInterval == newInterval && pvcStates.Values <= objects
        invariant todo <= pvcStates.Keys && pvcStates == states && retention == newRetention && view == old(view)
        invariant objects <= owner.Keys && fresh(owner.Keys - objects)
      {
        var key :| key in todo;
        ResizeState(key, pvcStates[key], todo, view);
        todo := todo - {key};
      }
      FinishResizing();
    }
  }
}
