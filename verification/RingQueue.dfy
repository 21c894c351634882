/** The ring buffers of dedup, and the queues that move items between them. */
module RingQueue {

  /** The slots from tail up to head, around the end of the array. */
  function Between(d: seq<nat>, tail: nat, head: nat): (s: seq<nat>)
    requires tail < |d| && head < |d|
    ensures |s| == (if tail <= head then head - tail else head + |d| - tail) < |d|
  {
    if tail <= head then d[tail..head] else d[tail..] + d[..head]
  }

  function Next(i: nat, size: nat): nat { if i + 1 >= size then 0 else i + 1 }

  lemma SlotBefore(i: nat, size: nat)
    requires i < size
    ensures (i - 1 + size) % size == if i == 0 then size - 1 else i - 1
  {
  }

  lemma WithoutOldest(d: seq<nat>, tail: nat, head: nat)
    requires tail < |d| && head < |d| && tail != head
    ensures Next(tail, |d|) < |d| && Between(d, tail, head) == [d[tail]] + Between(d, Next(tail, |d|), head)
  {
    hide Between;
    if tail < head {
      Inside(d, tail, head);
    } else if tail + 1 == |d| {
      AtEnd(d, head);
    } else {
      Around(d, tail, head);
    }
  }

  lemma Inside(d: seq<nat>, tail: nat, head: nat)
    requires tail < head < |d|
    ensures Between(d, tail, head) == [d[tail]] + Between(d, tail + 1, head)
  {
    assert d[tail..head] == [d[tail]] + d[tail + 1..head];
  }

  lemma AtEnd(d: seq<nat>, head: nat)
    requires head < |d| - 1
    ensures Between(d, |d| - 1, head) == [d[|d| - 1]] + Between(d, 0, head)
  {
    Drop(d, |d| - 1);
    assert d[0..head] == d[..head];
  }

  lemma Around(d: seq<nat>, tail: nat, head: nat)
    requires head < tail < |d| - 1
    ensures Between(d, tail, head) == [d[tail]] + Between(d, tail + 1, head)
  {
    Drop(d, tail);
  }

  lemma Drop(d: seq<nat>, i: nat)
    requires i < |d|
    ensures d[i..] == [d[i]] + d[i + 1..]
  {
  }

  lemma WithNewest(d: seq<nat>, tail: nat, head: nat, x: nat)
    requires tail < |d| && head < |d| && Next(head, |d|) != tail
    ensures Next(head, |d|) < |d| && Between(d[head := x], tail, Next(head, |d|)) == Between(d, tail, head) + [x]
  {
  }

  /** A buffer of size - 1 items; one slot stays unused so that full and empty differ. */
  class Ring {
    var head: nat
    var tail: nat
    const data: array<nat>

    ghost predicate Valid()
      reads this
    {
      head < data.Length && tail < data.Length
    }

    /** The items, oldest first. */
    ghost function Items(): (s: seq<nat>)
      requires Valid()
      reads this, data
      ensures |s| < data.Length
    {
      Between(data[..], tail, head)
    }

    ghost function Capacity(): nat
      requires Valid()
      reads this
    {
      data.Length - 1
    }

    /** ringbuffer_init */
    constructor (size: nat)
      ensures Valid() && Items() == [] && Capacity() == size && fresh(data)
    {
      data := new nat[size + 1];
      head, tail := 0, 0;
    }

    /** ringbuffer_isEmpty */
    predicate IsEmpty()
      requires Valid()
      reads this, data
      ensures IsEmpty() <==> Items() == []
    {
      tail == head
    }

    /** ringbuffer_isFull */
    predicate IsFull()
      requires Valid()
      reads this, data
      ensures IsFull() <==> |Items()| == Capacity()
    {
      SlotBefore(tail, data.Length);
      head == (tail - 1 + data.Length) % data.Length
    }

    /** ringbuffer_remove: the oldest item, or nothing. */
    method Remove() returns (item: nat, ok: bool)
      requires Valid()
      modifies this`tail
      ensures Valid() && ok == (old(Items()) != [])
      ensures if ok then old(Items()) == [item] + Items() else Items() == old(Items())
    {
      if IsEmpty() {
        return 0, false;
      }
      hide Between;
      WithoutOldest(data[..], tail, head);
      item, ok := data[tail], true;
      tail := tail + 1;
      if tail >= data.Length {
        tail := 0;
      }
    }

    /** ringbuffer_insert */
    method Insert(item: nat) returns (rv: int)
      requires Valid()
      modifies this`head, data
      ensures Valid() && rv == (if |old(Items())| == Capacity() then -1 else 0)
      ensures Items() == if rv == 0 then old(Items()) + [item] else old(Items())
    {
      if IsFull() {
        return -1;
      }
      hide Between;
      WithNewest(data[..], tail, head, item);
      data[head] := item;
      head := head + 1;
      if head == data.Length {
        head := 0;
      }
      rv := 0;
    }
  }

  lemma Oldest(all: seq<nat>, i: nat)
    requires i < |all|
    ensures all[i..] == [all[i]] + all[i + 1..] && all[..i] + [all[i]] == all[..i + 1]
  {
  }

  lemma Halves(s: seq<nat>, i: nat)
    requires i <= |s|
    ensures s == s[..i] + s[i..]
  {
  }

  lemma FirstRest(s: seq<nat>, x: nat, rest: seq<nat>)
    requires s == [x] + rest
    ensures s[0] == x && s[1..] == rest
  {
  }

  function Min(a: nat, b: nat): nat { if a < b then a else b }

  /** The loop that queue_enqueue and queue_dequeue share: items go over in order until the limit is
      reached, the one buffer is empty or the other is full. The assertions in it hold. */
  method Move(from: Ring, to: Ring, limit: nat) returns (i: nat)
    requires from.Valid() && to.Valid() && from != to && from.data != to.data
    modifies from`tail, to`head, to.data
    ensures from.Valid() && to.Valid()
    ensures i == Min(limit, Min(|old(from.Items())|, to.Capacity() - |old(to.Items())|))
    ensures from.Items() == old(from.Items())[i..] && to.Items() == old(to.Items()) + old(from.Items())[..i]
  {
    hide Ring.Items, Ring.IsEmpty, Ring.IsFull;
    i := 0;
    ghost var all := from.Items();
    assert all[..0] == [] && all[0..] == all;
    while i < limit && !from.IsEmpty() && !to.IsFull()
      invariant from.Valid() && to.Valid() && i <= limit && i <= |all| && |to.Items()| <= to.Capacity()
      invariant from.Items() == all[i..] && to.Items() == old(to.Items()) + all[..i]
      decreases limit - i
    {
      Oldest(all, i);
      var item, ok := from.Remove();
      assert ok;
      FirstRest([item] + from.Items(), item, from.Items());
      var rv := to.Insert(item);
      assert rv == 0;
      i := i + 1;
    }
  }

  class Queue {
    const buf: Ring
    const nProducers: nat
    var nTerminated: nat

    ghost predicate Valid()
      reads this, buf
    {
      buf.Valid() && nTerminated <= nProducers
    }

    /** queue_init */
    constructor (size: nat, nProducers: nat)
      ensures Valid() && buf.Items() == [] && buf.Capacity() == size && this.nProducers == nProducers
      ensures nTerminated == 0
      ensures fresh(buf) && fresh(buf.data)
    {
      buf := new Ring(size);
      this.nProducers := nProducers;
      nTerminated := 0;
    }

    predicate IsTerminated()
      reads this
    {
      nTerminated == nProducers
    }

    /** queue_terminate; its caller is one of the producers that have not terminated. */
    method Terminate()
      requires Valid() && !IsTerminated()
      modifies this`nTerminated
      ensures Valid() && nTerminated == old(nTerminated) + 1
    {
      nTerminated := nTerminated + 1;
    }

    /** queue_dequeue, when the thread has the mutex and need not wait. */
    method Dequeue(to: Ring, limit: nat) returns (i: int)
      requires Valid() && to.Valid() && to != buf && to.data != buf.data
      requires buf.Items() != [] || IsTerminated()
      modifies buf`tail, to`head, to.data
      ensures Valid() && to.Valid()
      ensures i == -1 <==> old(buf.Items()) == []
      ensures i != -1 ==> i == Min(limit, Min(|old(buf.Items())|, to.Capacity() - |old(to.Items())|))
      ensures i != -1 ==> old(buf.Items()) == old(buf.Items())[..i] + buf.Items()
      ensures i != -1 ==> to.Items() == old(to.Items()) + old(buf.Items())[..i]
      ensures i == -1 ==> buf.Items() == [] && to.Items() == old(to.Items())
    {
      hide Ring.Items, Ring.IsEmpty, Ring.IsFull;
      ghost var all := buf.Items();
      if buf.IsEmpty() && IsTerminated() {
        return -1;
      }
      i := Move(buf, to, limit);
      Halves(all, i);
    }

    /** queue_enqueue, when the thread has the mutex and need not wait. */
    method Enqueue(from: Ring, limit: nat) returns (i: nat)
      requires Valid() && from.Valid() && from != buf && from.data != buf.data
      requires !IsTerminated() && |buf.Items()| < buf.Capacity()
      modifies from`tail, buf`head, buf.data
      ensures Valid() && from.Valid() && i == Min(limit, Min(|old(from.Items())|, buf.Capacity() - |old(buf.Items())|))
      ensures old(from.Items()) == old(from.Items())[..i] + from.Items()
      ensures buf.Items() == old(buf.Items()) + old(from.Items())[..i]
    {
      hide Ring.Items, Ring.IsEmpty, Ring.IsFull;
      ghost var all := from.Items();
      i := Move(from, buf, limit);
      Halves(all, i);
    }
  }
}
