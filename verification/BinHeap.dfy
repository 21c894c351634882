/** The binary heap in which Reorder keeps the chunks of one coarse piece that came too early. */
module BinHeap {
  import opened Chunks

  /** A slot of the array: a chunk, or the null pointer that stands in front as a sentinel. */
  type Slot = Option<Chunk>

  function Key(s: Slot): int { if s == None then -1 else s.value.l2 }

  /** Places 1.. hold chunks, place 0 the sentinel. */
  predicate Shape(t: seq<Slot>) { t != [] && t[0] == None && forall k :: 1 <= k < |t| ==> t[k].Some? }

  predicate OrderedAt(t: seq<Slot>, k: nat)
    requires 1 <= k < |t|
  {
    Key(t[k / 2]) <= Key(t[k])
  }

  /** No chunk is smaller than its parent. */
  predicate Ordered(t: seq<Slot>) { forall k: nat :: 1 <= k < |t| ==> OrderedAt(t, k) }

  /** The same, except at place i, which is to move up. */
  predicate OrderedBut(t: seq<Slot>, i: nat)
    requires 1 <= i < |t|
  {
    && (forall k: nat :: 1 <= k < |t| && k != i ==> OrderedAt(t, k))
    && forall k: nat :: i < k < |t| && k / 2 == i ==> Key(t[i / 2]) <= Key(t[k])
  }

  /** The same, except below place i, which is to move down. */
  predicate OrderedAbove(t: seq<Slot>, i: nat)
    requires 1 <= i < |t|
  {
    && (forall k: nat :: 1 <= k < |t| && k / 2 != i ==> OrderedAt(t, k))
    && forall k: nat :: i < k < |t| && k / 2 == i ==> Key(t[i / 2]) <= Key(t[k])
  }

  lemma {:induction false} RootIsLeast(t: seq<Slot>, k: nat)
    requires Shape(t) && Ordered(t) && 1 <= k < |t|
    ensures t[1].value.l2 <= t[k].value.l2
  {
    if k > 1 {
      RootIsLeast(t, k / 2);
      assert OrderedAt(t, k);
    }
  }

  /** Two places exchange their contents. */
  lemma Swapped(t: seq<Slot>, i: nat, j: nat)
    requires 1 <= i < |t| && 1 <= j < |t|
    ensures multiset(t[i := t[j]][j := t[i]]) == multiset(t)
  {
  }

  lemma UpStep(t: seq<Slot>, i: nat)
    requires Shape(t) && 2 <= i < |t| && OrderedBut(t, i) && Key(t[i / 2]) > Key(t[i])
    ensures OrderedBut(t[i := t[i / 2]][i / 2 := t[i]], i / 2)
  {
    var j := i / 2;
    var u := t[i := t[j]][j := t[i]];
    assert OrderedAt(t, j);
    forall k: nat | 1 <= k < |u| && k != j
      ensures OrderedAt(u, k)
    {
      assert k != i ==> OrderedAt(t, k);
    }
    forall k: nat | j < k < |u| && k / 2 == j
      ensures Key(u[j / 2]) <= Key(u[k])
    {
      assert k != i ==> OrderedAt(t, k);
    }
  }

  lemma UpEnd(t: seq<Slot>, i: nat)
    requires 1 <= i < |t| && OrderedBut(t, i) && OrderedAt(t, i)
    ensures Ordered(t)
  {
  }

  lemma DownStep(t: seq<Slot>, i: nat, c: nat)
    requires Shape(t) && 1 <= i && i < c < |t| && c / 2 == i && OrderedAbove(t, i) && Key(t[i]) > Key(t[c])
    requires forall k: nat :: i < k < |t| && k / 2 == i ==> Key(t[c]) <= Key(t[k])
    ensures OrderedAbove(t[i := t[c]][c := t[i]], c)
  {
    var u := t[i := t[c]][c := t[i]];
    forall k: nat | 1 <= k < |u| && k / 2 != c
      ensures OrderedAt(u, k)
    {
      if k / 2 != i {
        assert OrderedAt(t, k);
      }
      assert k == i && i > 1 ==> OrderedAt(t, i);
    }
    forall k: nat | c < k < |u| && k / 2 == c
      ensures Key(u[c / 2]) <= Key(u[k])
    {
      assert OrderedAt(t, k);
    }
  }

  lemma DownEnd(t: seq<Slot>, i: nat)
    requires 1 <= i < |t| && OrderedAbove(t, i) && forall k: nat :: i < k < |t| && k / 2 == i ==> Key(t[i]) <= Key(t[k])
    ensures Ordered(t)
  {
    forall k: nat | 1 <= k < |t|
      ensures OrderedAt(t, k)
    {
      assert k / 2 != i ==> OrderedAt(t, k);
    }
  }

  /** The chunks in a list of slots. */
  function Bag(t: seq<Slot>): multiset<Slot>
    requires t != []
  {
    multiset(t[1..])
  }

  lemma SwapBag(t: seq<Slot>, i: nat, j: nat)
    requires 1 <= i < |t| && 1 <= j < |t|
    ensures Bag(t[i := t[j]][j := t[i]]) == Bag(t)
  {
    var u := t[i := t[j]][j := t[i]];
    Swapped(t, i, j);
    assert t == [t[0]] + t[1..];
    assert u == [t[0]] + u[1..];
  }

  /** A chunk put behind the last place may have to move up. */
  lemma PutLast(t: seq<Slot>, x: Chunk)
    requires Shape(t) && Ordered(t)
    ensures Shape(t + [Some(x)]) && OrderedBut(t + [Some(x)], |t|) && Bag(t + [Some(x)]) == Bag(t) + multiset{Some(x)}
  {
    var u := t + [Some(x)];
    assert u[1..] == t[1..] + [Some(x)];
    forall k: nat | 1 <= k < |u| && k != |t|
      ensures OrderedAt(u, k)
    {
      assert OrderedAt(t, k);
    }
  }

  /** The last chunk put in the place of the first may have to move down. */
  lemma TakeFirst(t: seq<Slot>)
    requires Shape(t) && Ordered(t) && |t| > 2
    ensures var n := |t| - 1; var u := t[..n][1 := t[n]];
            Shape(u) && OrderedAbove(u, 1) && Bag(u) == Bag(t) - multiset{t[1]}
  {
    var n := |t| - 1;
    var u := t[..n][1 := t[n]];
    assert t[1..] == [t[1]] + t[2..n] + [t[n]];
    assert u[1..] == [t[n]] + t[2..n];
    forall k: nat | 1 <= k < |u| && k / 2 != 1
      ensures OrderedAt(u, k)
    {
      assert OrderedAt(t, k);
    }
  }

  class PriorityQueue {
    var capacity: nat
    var size: nat
    var elements: array<Slot>

    ghost function Slots(): seq<Slot>
      requires size < elements.Length
      reads this, elements
    {
      elements[..size + 1]
    }

    ghost predicate Valid()
      reads this, elements
    {
      && elements.Length == capacity + 1 && size <= capacity && capacity > 0
      && Shape(Slots()) && Ordered(Slots())
    }

    /** The chunks in the heap. */
    ghost function Contents(): multiset<Slot>
      requires size < elements.Length
      reads this, elements
    {
      Bag(Slots())
    }

    /** Initialize */
    constructor (initCapacity: nat)
      requires initCapacity >= 16
      ensures Valid() && Contents() == multiset{} && fresh(elements)
    {
      capacity, size := initCapacity, 0;
      elements := new Slot[initCapacity + 1](_ => None);
    }

    /** The array is enlarged if it is full. */
    method Room()
      requires Valid()
      modifies this
      ensures Valid() && size == old(size) < capacity && Slots() == old(Slots())
      ensures elements == old(elements) || fresh(elements)
    {
      if size == capacity {
        var larger := new Slot[2 * capacity + 1](_ => None);
        forall k | 0 <= k <= size {
          larger[k] := elements[k];
        }
        capacity := 2 * capacity;
        elements := larger;
        assert elements[..size + 1] == old(elements[..size + 1]);
      }
    }

    /** Insert */
    method Insert(x: Chunk)
      requires Valid()
      modifies this, elements
      ensures Valid() && Contents() == old(Contents()) + multiset{Some(x)}
      ensures elements == old(elements) || fresh(elements)
    {
      hide Shape, Ordered, OrderedBut, Bag;
      Room();
      ghost var before := Slots();
      PutLast(before, x);
      if size == 0 {
        elements[1] := Some(x);
        size := 1;
        assert Slots() == before + [Some(x)];
        First(Slots());
        return;
      }
      size := size + 1;
      assert elements[..size + 1][size := Some(x)] == before + [Some(x)];
      PercolateUp(x, before + [Some(x)]);
    }

    /** The loop of Insert, which looks for the place of the new chunk. */
    method PercolateUp(x: Chunk, ghost start: seq<Slot>)
      requires 1 <= size < elements.Length && start == elements[..size + 1][size := Some(x)]
      requires Shape(start) && OrderedBut(start, size)
      modifies elements
      ensures Shape(Slots()) && Ordered(Slots()) && Contents() == Bag(start)
    {
      hide Shape, Ordered, OrderedBut, Bag;
      var i := size;
      ghost var t := start;
      Sentinel(t);
      while elements[i / 2] != None && Key(elements[i / 2]) > x.l2
        invariant 1 <= i <= size && t == elements[..size + 1][i := Some(x)] && t[0] == None && elements[0] == None
        invariant Shape(t) && OrderedBut(t, i) && Bag(t) == Bag(start)
        decreases i
      {
        UpStep(t, i);
        SwapBag(t, i, i / 2);
        ShapeSwap(t, i, i / 2);
        t := t[i := t[i / 2]][i / 2 := t[i]];
        elements[i] := elements[i / 2];
        i := i / 2;
      }
      UpEnd(t, i);
      elements[i] := Some(x);
      assert Slots() == t;
    }

    /** FindMin */
    method FindMin() returns (r: Slot)
      requires Valid()
      ensures if Contents() == multiset{} then r == None else r in Contents() && IsLeast(r, Slots())
    {
      if size > 0 {
        r := elements[1];
        Least(Slots());
      } else {
        r := None;
        assert Slots()[1..] == [];
      }
    }

    /** DeleteMin: a chunk with the smallest number leaves the heap. */
    method DeleteMin() returns (r: Slot)
      requires Valid()
      modifies this`size, elements
      ensures Valid() && capacity == old(capacity)
      ensures if old(Contents()) == multiset{} then r == None && Contents() == old(Contents())
              else r in old(Contents()) && IsLeast(r, old(Slots())) && Contents() == old(Contents()) - multiset{r}
    {
      hide Shape, Ordered, OrderedAbove, OrderedAt, IsLeast, Bag;
      ghost var before := Slots();
      EmptyBag(before);
      if size == 0 {
        return None;
      }
      Least(before);
      r := elements[1];
      var last := elements[size];
      size := size - 1;
      if size == 0 {
        elements[1] := last;
        assert before == [before[0], r] && Slots() == [before[0]];
        One(before);
      } else {
        TakeFirst(before);
        Percolate(last, before[..size + 1][1 := last]);
      }
    }

    /** The loop of DeleteMin, which looks for the place of the last chunk. */
    method Percolate(last: Slot, ghost start: seq<Slot>)
      requires 0 < size < elements.Length && start == elements[..size + 1][1 := last]
      requires Shape(start) && OrderedAbove(start, 1)
      modifies elements
      ensures Shape(Slots()) && Ordered(Slots()) && Contents() == Bag(start)
    {
      hide Shape, Ordered, OrderedAbove, OrderedAt, Bag;
      var i := 1;
      ghost var t := start;
      while i * 2 <= size
        invariant 1 <= i <= size && t == elements[..size + 1][i := last] && |t| == size + 1
        invariant Shape(t) && OrderedAbove(t, i) && Bag(t) == Bag(start)
        decreases size - i
      {
        var child := i * 2;
        if child != size && Key(elements[child + 1]) < Key(elements[child]) {
          child := child + 1;
        }
        Children(t, i, child);
        if Key(last) > Key(elements[child]) {
          DownStep(t, i, child);
          SwapBag(t, i, child);
          ShapeSwap(t, i, child);
          t := t[i := t[child]][child := t[i]];
          elements[i] := elements[child];
          i := child;
        } else {
          break;
        }
      }
      DownEnd(t, i);
      elements[i] := last;
      assert Slots() == t;
    }
  }

  /** No slot has a smaller number. */
  ghost predicate IsLeast(r: Slot, t: seq<Slot>)
  {
    r.Some? && forall k :: 1 <= k < |t| && t[k].Some? ==> r.value.l2 <= t[k].value.l2
  }

  lemma Least(t: seq<Slot>)
    requires Shape(t) && Ordered(t) && |t| > 1
    ensures t[1].Some? && t[1] in Bag(t) && IsLeast(t[1], t)
  {
    forall k | 1 <= k < |t|
      ensures t[k].Some? && t[1].value.l2 <= t[k].value.l2
    {
      RootIsLeast(t, k);
    }
    assert t[1..][0] == t[1];
  }

  lemma EmptyBag(t: seq<Slot>)
    requires t != []
    ensures Bag(t) == multiset{} <==> |t| == 1
  {
    assert |t| > 1 ==> t[1] in Bag(t) by {
      assert |t| > 1 ==> t[1..][0] == t[1];
    }
  }

  lemma One(t: seq<Slot>)
    requires Shape(t) && |t| == 2
    ensures Shape(t[..1]) && Ordered(t[..1]) && Bag(t[..1]) == Bag(t) - multiset{t[1]}
    ensures [t[0]] == t[..1]
  {
    assert t[1..] == [t[1]];
    assert t[..1][1..] == [];
  }

  /** The smaller of the two children, if there are two. */
  lemma Children(t: seq<Slot>, i: nat, c: nat)
    requires 1 <= i && 2 * i < |t| && (c == 2 * i || (c == 2 * i + 1 < |t| && Key(t[c]) < Key(t[2 * i])))
    requires c == 2 * i && 2 * i + 1 < |t| ==> Key(t[2 * i]) <= Key(t[2 * i + 1])
    ensures c / 2 == i < c < |t| && forall k: nat :: i < k < |t| && k / 2 == i ==> Key(t[c]) <= Key(t[k])
  {
  }

  lemma First(t: seq<Slot>)
    requires |t| == 2 && Shape(t)
    ensures Ordered(t)
  {
  }

  lemma Sentinel(t: seq<Slot>)
    requires Shape(t)
    ensures t[0] == None
  {
  }

  lemma ShapeSwap(t: seq<Slot>, i: nat, j: nat)
    requires Shape(t) && 1 <= i < |t| && 1 <= j < |t|
    ensures Shape(t[i := t[j]][j := t[i]])
  {
  }
}
