/** The fixed-capacity circular buffer of samples: modular indices refining a bounded queue. */
module RingBuffers {

  import opened Growth

  /** The last n elements, or everything when there are no more than n. */
  function LastN<T>(s: seq<T>, n: nat): (r: seq<T>)
    ensures |r| == if |s| <= n then |s| else n
  {
    if |s| <= n then s else s[|s| - n..]
  }

  /** Index arithmetic modulo the capacity. */
  function Wrap(x: nat, capacity: nat): (slot: nat)
    requires capacity > 0 && x < 2 * capacity
    ensures slot == if x < capacity then x else x - capacity
  {
    if x >= capacity then
      assert x == capacity * 1 + (x - capacity);
      x % capacity
    else
      x % capacity
  }

  /** The `count` samples written before slot `head` of a circular buffer, oldest first. */
  ghost function Oldest(data: seq<Sample>, head: nat, count: nat): (s: seq<Sample>)
    requires head < |data| && count <= |data|
    ensures |s| == count
  {
    if count <= head then data[head - count..head]
    else data[|data| - (count - head)..] + data[..head]
  }

  lemma OldestAt(data: seq<Sample>, head: nat, count: nat, i: nat)
    requires head < |data| && i < count <= |data|
    ensures Oldest(data, head, count)[i]
            == if i + head < count then data[|data| + head - count + i] else data[head + i - count]
  {
  }

  lemma OldestAfterWrite(data: seq<Sample>, head: nat, count: nat, s: Sample)
    requires head < |data| && count <= |data|
    ensures var written := data[head := s];
            var next := if head + 1 < |data| then head + 1 else 0;
            var held := if count < |data| then count + 1 else count;
            Oldest(written, next, held) == LastN(Oldest(data, head, count) + [s], |data|)
  {
    hide Oldest;
    var written := data[head := s];
    var next := if head + 1 < |data| then head + 1 else 0;
    var held := if count < |data| then count + 1 else count;
    var was, now := Oldest(data, head, count), Oldest(written, next, held);
    OldestAt(written, next, held, held - 1);
    assert now[held - 1] == s;
    forall i | 0 <= i < held - 1 ensures now[i] == was[i + count + 1 - held] {
      OldestAt(written, next, held, i);
      OldestAt(data, head, count, i + count + 1 - held);
    }
  }

  class RingBuffer {
    const buf: array<Sample>
    const capacity: nat
    /** index of the next write slot */
    var head: nat
    /** number of valid entries */
    var count: nat

    ghost predicate Valid()
      reads this
    {
      capacity >= 1 && buf.Length == capacity && head < capacity && count <= capacity
    }

    /** The samples held, oldest first. */
    ghost function Contents(): (s: seq<Sample>)
      requires Valid()
      reads this, buf
      ensures |s| == count
    {
      Oldest(buf[..], head, count)
    }

    constructor (requested: int)
      ensures Valid() && fresh(buf)
      ensures capacity == (if requested < 1 then 1 else requested)
      ensures Contents() == []
    {
      var size := if requested < 1 then 1 else requested;
      buf := new Sample[size];
      capacity := size;
      head, count := 0, 0;
    }

    method Push(s: Sample)
      requires Valid()
      modifies this, buf
      ensures Valid()
      ensures Contents() == LastN(old(Contents()) + [s], capacity)
    {
      hide Oldest, LastN, Wrap;
      OldestAfterWrite(buf[..], head, count, s);
      ghost var before := buf[..];
      buf[head] := s;
      assert buf[..] == before[head := s];
      head := Wrap(head + 1, capacity);
      if count < capacity {
        count := count + 1;
      }
    }

    /** A copy of the samples, oldest first. */
    method Snapshot() returns (out: seq<Sample>)
      requires Valid()
      ensures out == Contents()
    {
      hide Wrap, Oldest;
      if count == 0 {
        return [];
      }
      var copied := new Sample[count];
      var start := Wrap(head - count + capacity, capacity);
      for i := 0 to count
        invariant forall j :: 0 <= j < i ==> copied[j] == Contents()[j]
      {
        OldestAt(buf[..], head, count, i);
        copied[i] := buf[Wrap(start + i, capacity)];
      }
      out := copied[..];
    }

    method Len() returns (n: nat)
      requires Valid()
      ensures n == |Contents()| <= capacity
    {
      n := count;
    }

    method Reset()
      requires Valid()
      modifies this
      ensures Valid()
      ensures Contents() == []
    {
      head, count := 0, 0;
    }
  }
}
