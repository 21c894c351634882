/** Where the cell structures of the fluid simulation are while the grid is rebuilt. */
module RebuildLayout {
  import opened CellPool

  /** A block is in the pool, or in a chain of the old grid, or in a chain of the new one. */
  datatype Place = Pooled | Source(i: nat, k: nat) | Target(i: nat, k: nat)

  datatype Layout = Layout(place: map<Block, Place>, free: seq<Block>, src: seq<seq<Block>>, dst: seq<seq<Block>>)

  /** When j particles of chain i have been moved: the blocks of the old grid that are still in use.
      The first block of a chain always is. */
  predicate Live(i: nat, j: nat, i': nat, k: nat) { k == 0 || i' > i || (i' == i && k >= j / PARTICLES_PER_CELL) }

  ghost predicate SourceAt(l: Layout, i: nat, k: nat)
    requires i < |l.src| && k < |l.src[i]|
  {
    l.src[i][k] in l.place && l.place[l.src[i][k]] == Source(i, k)
  }

  ghost predicate TargetAt(l: Layout, i: nat, k: nat)
    requires i < |l.dst| && k < |l.dst[i]|
  {
    l.dst[i][k] in l.place && l.place[l.dst[i][k]] == Target(i, k)
  }

  /** A block is where its place says. */
  ghost predicate Found(l: Layout, i: nat, j: nat, b: Block)
    requires b in l.place
  {
    match l.place[b]
    case Pooled => b in l.free
    case Source(c, k) => c < |l.src| && k < |l.src[c]| && Live(i, j, c, k) && l.src[c][k] == b
    case Target(c, k) => c < |l.dst| && k < |l.dst[c]| && l.dst[c][k] == b
  }

  /** The free list, the old chains and the new chains are disjoint and hold all blocks. */
  ghost predicate Placed(l: Layout, i: nat, j: nat) {
    && Distinct(l.free)
    && (forall b :: b in l.free ==> b in l.place && l.place[b] == Pooled)
    && (forall c: nat, k: nat :: c < |l.src| && k < |l.src[c]| && Live(i, j, c, k) ==> SourceAt(l, c, k))
    && (forall c: nat, k: nat :: c < |l.dst| && k < |l.dst[c]| ==> TargetAt(l, c, k))
    && (forall b :: b in l.place ==> Found(l, i, j, b))
  }

  /** A free block is appended to a new chain. */
  function Taken(l: Layout, c: nat): Layout
    requires l.free != [] && c < |l.dst|
  {
    var b := l.free[|l.free| - 1];
    Layout(l.place[b := Target(c, |l.dst[c]|)], l.free[..|l.free| - 1], l.src, l.dst[c := l.dst[c] + [b]])
  }

  lemma TakenPlaced(l: Layout, i: nat, j: nat, c: nat)
    requires Placed(l, i, j) && l.free != [] && c < |l.dst|
    ensures Placed(Taken(l, c), i, j)
  {
    hide Live;
    var l', b := Taken(l, c), l.free[|l.free| - 1];
    assert b in l.free && l.place[b] == Pooled;
    forall x | x in l'.place
      ensures Found(l', i, j, x)
    {
      if x != b {
        assert Found(l, i, j, x);
      }
    }
    forall e: nat, k: nat | e < |l'.src| && k < |l'.src[e]| && Live(i, j, e, k)
      ensures SourceAt(l', e, k)
    {
      assert SourceAt(l, e, k);
    }
    forall e: nat, k: nat | e < |l'.dst| && k < |l'.dst[e]|
      ensures TargetAt(l', e, k)
    {
      assert e < |l.dst| && k < |l.dst[e]| ==> TargetAt(l, e, k);
    }
  }

  /** New blocks come into an empty pool. */
  function Filled(l: Layout, list: seq<Block>): Layout {
    Layout(l.place + map b | b in list :: Pooled, list, l.src, l.dst)
  }

  lemma FilledPlaced(l: Layout, i: nat, j: nat, list: seq<Block>)
    requires Placed(l, i, j) && l.free == [] && Distinct(list) && forall b :: b in list ==> b !in l.place
    ensures Placed(Filled(l, list), i, j)
  {
    hide Live;
    var l' := Filled(l, list);
    forall x | x in l'.place
      ensures Found(l', i, j, x)
    {
      assert x !in list ==> Found(l, i, j, x);
    }
    forall e: nat, k: nat | e < |l'.src| && k < |l'.src[e]| && Live(i, j, e, k)
      ensures SourceAt(l', e, k)
    {
      assert SourceAt(l, e, k);
    }
    forall e: nat, k: nat | e < |l'.dst| && k < |l'.dst[e]|
      ensures TargetAt(l', e, k)
    {
      assert TargetAt(l, e, k);
    }
  }

  /** What a call of the pool does: it fills the pool if that is empty, then block b joins chain c. */
  function Got(l: Layout, free: seq<Block>, b: Block, c: nat): Layout
    requires c < |l.dst| && (l.free != [] ==> l.free == free + [b])
  {
    Taken(if l.free == [] then Filled(l, free + [b]) else l, c)
  }

  lemma GotPlaced(l: Layout, i: nat, j: nat, free: seq<Block>, b: Block, c: nat)
    requires Placed(l, i, j) && c < |l.dst|
    requires if l.free == [] then Distinct(free + [b]) &&
             (forall x :: x in free + [b] ==> x !in l.place) else l.free == free + [b]
    ensures Placed(Got(l, free, b, c), i, j)
  {
    hide Placed, Distinct, Taken;
    if l.free == [] {
      FilledPlaced(l, i, j, free + [b]);
    }
    TakenPlaced(if l.free == [] then Filled(l, free + [b]) else l, i, j, c);
  }

  lemma GotIs(l: Layout, free: seq<Block>, b: Block, c: nat)
    requires c < |l.dst| && (l.free != [] ==> l.free == free + [b])
    ensures Got(l, free, b, c) == Layout(Got(l, free, b, c).place, free, l.src, l.dst[c := l.dst[c] + [b]])
    ensures b in Got(l, free, b, c).place && Got(l, free, b, c).place[b] == Target(c, |l.dst[c]|)
    ensures forall x: Block :: x in Got(l, free, b, c).place <==> x in l.place || x == b || (l.free == [] && x in free)
    ensures forall x: Block :: x in Got(l, free, b, c).place && x != b ==>
              Got(l, free, b, c).place[x] == if l.free == [] && x in free then Pooled else l.place[x]
  {
    assert (free + [b])[..|free|] == free;
  }

  /** A block of the old chain i that is no longer in use goes back to the pool. */
  function Freed(l: Layout, b: Block): Layout {
    Layout(l.place[b := Pooled], l.free + [b], l.src, l.dst)
  }

  /** From (i, j) to (i', j') exactly block k of chain i goes out of use. */
  ghost predicate OnlyLeaves(l: Layout, i: nat, j: nat, i': nat, j': nat, c: nat, k: nat) {
    forall e: nat, m: nat :: e < |l.src| && m < |l.src[e]| ==>
        (Live(i', j', e, m) <==> Live(i, j, e, m) && !(e == c && m == k))
  }

  ghost predicate NoneLeaves(l: Layout, i: nat, j: nat, i': nat, j': nat) {
    forall e: nat, m: nat :: e < |l.src| && m < |l.src[e]| ==> (Live(i', j', e, m) <==> Live(i, j, e, m))
  }

  lemma FreedPlaced(l: Layout, i: nat, j: nat, i': nat, j': nat, c: nat, k: nat)
    requires Placed(l, i, j) && c < |l.src| && k < |l.src[c]| && Live(i, j, c, k)
    requires OnlyLeaves(l, i, j, i', j', c, k)
    ensures l.src[c][k] !in l.free && Placed(Freed(l, l.src[c][k]), i', j')
  {
    hide Live;
    var b := l.src[c][k];
    var l' := Freed(l, b);
    assert SourceAt(l, c, k);
    forall x | x in l'.place
      ensures Found(l', i', j', x)
    {
      assert x != b ==> Found(l, i, j, x);
    }
    forall e: nat, m: nat | e < |l'.src| && m < |l'.src[e]| && Live(i', j', e, m)
      ensures SourceAt(l', e, m)
    {
      assert SourceAt(l, e, m);
    }
    forall e: nat, m: nat | e < |l'.dst| && m < |l'.dst[e]|
      ensures TargetAt(l', e, m)
    {
      assert TargetAt(l, e, m);
    }
  }

  lemma StillPlaced(l: Layout, i: nat, j: nat, i': nat, j': nat)
    requires Placed(l, i, j) && NoneLeaves(l, i, j, i', j')
    ensures Placed(l, i', j')
  {
    hide Live;
    forall x | x in l.place
      ensures Found(l, i', j', x)
    {
      assert Found(l, i, j, x);
    }
  }

  /** The grids change roles. The chains of the new grid are single blocks. */
  function Turned(l: Layout): Layout
    requires forall c :: 0 <= c < |l.src| ==> l.src[c] != []
  {
    Layout(map b | b in l.place :: Turn(l.place[b]), l.free, l.dst, Heads(l.src))
  }

  function Turn(p: Place): Place {
    match p
    case Pooled => Pooled
    case Source(i, k) => Target(i, k)
    case Target(i, k) => Source(i, k)
  }

  function Heads(s: seq<seq<Block>>): (r: seq<seq<Block>>)
    requires forall c :: 0 <= c < |s| ==> s[c] != []
    ensures |r| == |s| && forall c :: 0 <= c < |s| ==> r[c] == [s[c][0]]
  {
    seq(|s|, (c: nat) requires c < |s| && s[c] != [] => [s[c][0]])
  }

  lemma TurnedPlaced(l: Layout)
    requires Placed(l, |l.src|, 0) && forall c :: 0 <= c < |l.src| ==> l.src[c] != []
    ensures Placed(Turned(l), 0, 0)
  {
    var l' := Turned(l);
    forall x | x in l'.place
      ensures Found(l', 0, 0, x)
    {
      assert Found(l, |l.src|, 0, x);
    }
    forall e: nat, m: nat | e < |l'.src| && m < |l'.src[e]|
      ensures SourceAt(l', e, m)
    {
      assert TargetAt(l, e, m);
    }
    forall e: nat, m: nat | e < |l'.dst| && m < |l'.dst[e]|
      ensures TargetAt(l', e, m)
    {
      assert SourceAt(l, e, 0);
    }
  }

  function IndexOf(s: seq<Block>, b: Block): (k: nat)
    requires b in s
    ensures k < |s| && s[k] == b
  {
    if s[|s| - 1] == b then |s| - 1 else IndexOf(s[..|s| - 1], b)
  }

  /** The places at the start. */
  function Begin(free: seq<Block>, a: seq<Block>, b: seq<Block>): map<Block, Place> {
    map x | x in free + a + b ::
      if x in a then Target(IndexOf(a, x), 0) else if x in b then Source(IndexOf(b, x), 0) else Pooled
  }

  lemma BeginPlaced(l: Layout, a: seq<Block>, b: seq<Block>)
    requires l.place == Begin(l.free, a, b) && Distinct(l.free) && Distinct(a) && Distinct(b)
    requires (forall x :: x in a ==> x !in b) && (forall x :: x in l.free ==> x !in a && x !in b)
    requires |l.dst| == |a| && |l.src| == |b|
    requires (forall c: nat :: c < |a| ==> l.dst[c] == [a[c]]) && (forall c: nat :: c < |b| ==> l.src[c] == [b[c]])
    ensures Placed(l, |l.src|, 0)
  {
    forall x | x in l.place
      ensures Found(l, |l.src|, 0, x)
    {
    }
    forall e: nat, m: nat | e < |l.src| && m < |l.src[e]| && Live(|l.src|, 0, e, m)
      ensures SourceAt(l, e, m)
    {
      assert l.src[e][0] == b[e] && b[IndexOf(b, b[e])] == b[e];
    }
    forall e: nat, m: nat | e < |l.dst| && m < |l.dst[e]|
      ensures TargetAt(l, e, m)
    {
      assert l.dst[e][0] == a[e] && a[IndexOf(a, a[e])] == a[e];
    }
  }

  method NewBlocks(n: nat) returns (s: seq<Block>)
    ensures |s| == n && Distinct(s) && forall b :: b in s ==>
            fresh(b) && b.next == null && |b.pars| == PARTICLES_PER_CELL
  {
    s := [];
    while |s| < n
      invariant |s| <= n && Distinct(s)
      invariant forall b :: b in s ==> fresh(b) && b.next == null && |b.pars| == PARTICLES_PER_CELL
    {
      hide Distinct;
      var b := new Block();
      DistinctPush(s, b);
      s := s + [b];
    }
  }
}
