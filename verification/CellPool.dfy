/** The pool of cell structures of the fluid simulation. */
module CellPool {
  datatype Vec = Vec(x: real, y: real, z: real)

  datatype Particle = Particle(p: Vec, hv: Vec, v: Vec)

  const PARTICLES_PER_CELL: nat := 16

  /** A cell structure: room for sixteen particles, and a link. */
  class Block {
    var next: Block?
    var pars: seq<Particle>

    constructor ()
      ensures next == null && |pars| == PARTICLES_PER_CELL
    {
      next := null;
      var zero := Vec(0.0, 0.0, 0.0);
      pars := seq(PARTICLES_PER_CELL, _ => Particle(zero, zero, zero));
    }
  }

  ghost predicate Distinct(s: seq<Block>) { forall i, j :: 0 <= i < j < |s| ==> s[i] != s[j] }

  /** A list of blocks whose first is the last of the sequence. */
  ghost predicate Stacked(s: seq<Block>)
    reads s
  {
    forall k :: 0 <= k < |s| ==> StackedAt(s, k)
  }

  ghost predicate StackedAt(s: seq<Block>, k: int)
    requires 0 <= k < |s|
    reads s
  {
    s[k].next == Top(s[..k]) && |s[k].pars| == PARTICLES_PER_CELL
  }

  function Top(s: seq<Block>): Block? { if s == [] then null else s[|s| - 1] }

  lemma StackPush(s: seq<Block>, b: Block)
    requires Stacked(s) && b.next == Top(s) && |b.pars| == PARTICLES_PER_CELL
    ensures Stacked(s + [b]) && Top(s + [b]) == b
  {
    forall k | 0 <= k <= |s|
      ensures StackedAt(s + [b], k)
    {
      assert (s + [b])[..k] == s[..k];
      assert k < |s| ==> StackedAt(s, k);
      assert s[..|s|] == s;
    }
  }

  lemma StackPop(s: seq<Block>)
    requires Stacked(s) && s != [] && Distinct(s)
    ensures Stacked(s[..|s| - 1]) && s[|s| - 1].next == Top(s[..|s| - 1])
    ensures Distinct(s[..|s| - 1]) && s[|s| - 1] !in s[..|s| - 1] && |s[|s| - 1].pars| == PARTICLES_PER_CELL
  {
    assert StackedAt(s, |s| - 1);
    var t := s[..|s| - 1];
    forall k | 0 <= k < |t|
      ensures StackedAt(t, k)
    {
      assert t[..k] == s[..k];
      assert StackedAt(s, k);
    }
  }

  lemma DistinctPush(s: seq<Block>, b: Block)
    requires Distinct(s) && b !in s
    ensures Distinct(s + [b])
  {
  }

  const ALLOC_MIN_CELLS: nat := 1024

  /** cellpool_allocblock: the cells of a new data block, linked. */
  method AllocBlock(cells: nat) returns (first: Block, ghost list: seq<Block>)
    requires cells > 0
    ensures |list| == cells && Distinct(list) && Stacked(list) && first == Top(list)
    ensures forall b :: b in list ==> fresh(b)
  {
    first := new Block();
    list := [first];
    var i := 1;
    while i < cells
      invariant 1 <= i <= cells && |list| == i && Distinct(list) && Stacked(list) && first == Top(list)
      invariant forall b :: b in list ==> fresh(b)
    {
      hide Stacked, Distinct, Top;
      var b := new Block();
      b.next := first;
      first := b;
      StackPush(list, b);
      DistinctPush(list, b);
      list := list + [b];
      i := i + 1;
    }
  }

  class Pool {
    var cells: Block?
    var alloc: nat

    /** The blocks that are available, the next one last; and all that were ever allocated. */
    ghost var free: seq<Block>
    ghost var all: set<Block>

    ghost predicate Valid()
      reads this, free
    {
      && Distinct(free) && Stacked(free) && cells == Top(free)
      && (forall b :: b in free ==> b in all)
      && alloc == |all| > 0
    }

    /** cellpool_init */
    constructor (particles: nat)
      ensures Valid() && fresh(all) && alloc == |free| && alloc >= ALLOC_MIN_CELLS
      ensures 4 * (particles / PARTICLES_PER_CELL) <= alloc
      ensures forall b :: b in all <==> b in free
    {
      var n := 4 * (particles / PARTICLES_PER_CELL);
      n := if n < ALLOC_MIN_CELLS then ALLOC_MIN_CELLS else n;
      alloc := n;
      var first, list := AllocBlock(n);
      cells := first;
      free := list;
      all := set b | b in list;
      SetOfDistinct(list);
    }

    method Refill()
      requires Valid() && free == []
      modifies this
      ensures Valid() && alloc == 2 * old(alloc) && free != [] && all == old(all) + set b | b in free
      ensures forall b :: b in free ==> fresh(b)
    {
      hide Stacked, Distinct, Top;
      var first, list := AllocBlock(alloc);
      SetOfDistinct(list);
      DisjointSum(all, set x | x in list);
      all := all + set x | x in list;
      alloc := 2 * alloc;
      cells := first;
      free := list;
    }

    /** cellpool_getcell: the top of the list; an empty list is filled with as many cells as there are. */
    method GetCell() returns (b: Block)
      requires Valid()
      modifies this, if free == [] then {} else {free[|free| - 1]}
      ensures Valid() && b.next == null && |b.pars| == PARTICLES_PER_CELL && b in all && b !in free
      ensures old(free) == [] ==> fresh(b) && fresh(all - old(all)) && alloc == 2 * old(alloc)
      ensures old(free) != [] ==>
                b == old(free[|free| - 1]) && free == old(free[..|free| - 1]) && all == old(all) && alloc == old(alloc)
      ensures old(all) <= all
      ensures old(free) == [] ==> forall x :: x in all <==> x in old(all) || x in free || x == b
      ensures old(free) == [] ==> forall x :: x in free ==> fresh(x)
    {
      hide Stacked, Distinct;
      if cells == null {
        Refill();
      }
      b := cells;
      ghost var n := |free| - 1;
      StackPop(free);
      cells := b.next;
      b.next := null;
      free := free[..n];
    }

    /** cellpool_returncell */
    method ReturnCell(b: Block)
      requires Valid() && b in all && b !in free && |b.pars| == PARTICLES_PER_CELL
      modifies this, b`next
      ensures Valid() && free == old(free) + [b] && all == old(all) && alloc == old(alloc)
    {
      hide Stacked, Distinct, Top;
      b.next := cells;
      cells := b;
      StackPush(free, b);
      DistinctPush(free, b);
      free := free + [b];
    }
  }

  lemma {:induction false} SetOfDistinct(s: seq<Block>)
    requires Distinct(s)
    ensures |set b | b in s| == |s|
  {
    if s != [] {
      var t := s[..|s| - 1];
      SetOfDistinct(t);
      assert (set b | b in s) == (set b | b in t) + {s[|s| - 1]};
    }
  }

  lemma DisjointSum(a: set<Block>, b: set<Block>)
    requires a !! b
    ensures |a + b| == |a| + |b|
  {
  }
}
