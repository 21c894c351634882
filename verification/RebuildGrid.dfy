/** RebuildGrid of the fluid simulation: every particle moves to the chain of the cell it is in. */
module RebuildGrid {
  import opened CellPool
  import opened RebuildLayout
  import G = Grid

  /** The blocks of a chain of n particles: a first one that is always there, and no more than needed. */
  function Blocks(n: nat): (b: nat)
    ensures b >= 1 && 16 * b >= n && (n > 0 ==> 16 * (b - 1) < n)
  {
    if n == 0 then 1 else (n - 1) / PARTICLES_PER_CELL + 1
  }

  ghost predicate LinkAt(b: seq<Block>, k: nat)
    requires k < |b|
    reads b[k]
  {
    b[k].next == (if k + 1 < |b| then b[k + 1] else null) && |b[k].pars| == PARTICLES_PER_CELL
  }

  ghost predicate SlotAt(b: seq<Block>, pars: seq<Particle>, q: nat)
    requires q < |pars| && q / 16 < |b|
    reads b[q / 16]
  {
    |b[q / 16].pars| == PARTICLES_PER_CELL && b[q / 16].pars[q % 16] == pars[q]
  }

  /** The chain from its j-th particle on. */
  ghost predicate ChainFrom(b: seq<Block>, pars: seq<Particle>, j: nat)
    reads set k: nat | j / 16 <= k < |b| :: b[k]
  {
    && |b| >= Blocks(|pars|)
    && (forall k: nat :: j / 16 <= k < |b| ==> LinkAt(b, k))
    && (forall q: nat :: j <= q < |pars| ==> SlotAt(b, pars, q))
  }

  lemma ChainLater(b: seq<Block>, pars: seq<Particle>, j: nat, j': nat)
    requires ChainFrom(b, pars, j) && j <= j'
    ensures ChainFrom(b, pars, j')
  {
    hide LinkAt, SlotAt;
    assert j / 16 <= j' / 16;
  }

  /** A new block is linked behind the last. */
  lemma ChainGrows(b: seq<Block>, pars: seq<Particle>, x: Block)
    requires b != [] && |b| >= Blocks(|pars|)
    requires forall k: nat :: k < |b| - 1 ==> LinkAt(b, k)
    requires forall q: nat :: q < |pars| ==> SlotAt(b, pars, q)
    requires b[|b| - 1].next == x && |b[|b| - 1].pars| == PARTICLES_PER_CELL && x.next == null
    requires |x.pars| == PARTICLES_PER_CELL
    ensures ChainFrom(b + [x], pars, 0)
  {
    forall k: nat | k < |b + [x]|
      ensures LinkAt(b + [x], k)
    {
      assert k < |b| - 1 ==> LinkAt(b, k);
    }
    forall q: nat | q < |pars|
      ensures q / 16 < |b| && SlotAt(b + [x], pars, q)
    {
      assert SlotAt(b, pars, q);
    }
  }

  method LinkBehind(cell: Block, b: Block, ghost chain: seq<Block>, ghost pars: seq<Particle>)
    requires ChainFrom(chain, pars, 0) && chain != [] && cell == chain[|chain| - 1] && b !in chain
    requires b.next == null && |b.pars| == PARTICLES_PER_CELL && forall k: nat :: k < |chain| - 1 ==> chain[k] != cell
    modifies cell`next
    ensures ChainFrom(chain + [b], pars, 0) && b.next == null && |b.pars| == PARTICLES_PER_CELL
  {
    cell.next := b;
    forall k: nat | k < |chain| - 1
      ensures LinkAt(chain, k)
    {
      assert old(LinkAt(chain, k));
    }
    assert old(LinkAt(chain, |chain| - 1));
    forall q: nat | q < |pars|
      ensures SlotAt(chain, pars, q)
    {
      assert old(SlotAt(chain, pars, q));
    }
    ChainGrows(chain, pars, b);
  }

  method PutInto(cell: Block, par: Particle, ghost chain: seq<Block>, ghost pars: seq<Particle>, r: nat)
    requires ChainFrom(chain, pars, 0) && |chain| == Blocks(|pars| + 1) && cell == chain[|chain| - 1]
    requires r == |pars| % 16
    requires forall k: nat :: k < |chain| - 1 ==> chain[k] != cell
    modifies cell`pars
    ensures ChainFrom(chain, pars + [par], 0) && |cell.pars| == PARTICLES_PER_CELL
  {
    assert LinkAt(chain, |chain| - 1);
    cell.pars := cell.pars[r := par];
    forall k: nat | k < |chain|
      ensures LinkAt(chain, k)
    {
      assert old(LinkAt(chain, k));
    }
    forall q: nat | q < |pars + [par]|
      ensures SlotAt(chain, pars + [par], q)
    {
      if q < |pars| {
        assert old(SlotAt(chain, pars, q));
      }
    }
  }

  /** The domain of the simulation and its cells. */
  datatype Space = Space(d: G.Dims, min: Vec, delta: Vec)

  predicate SpaceOk(s: Space) {
    s.d.nx > 0 && s.d.ny > 0 && s.d.nz > 0 && s.delta.x > 0.0 && s.delta.y > 0.0 && s.delta.z > 0.0
  }

  /** Conversion of a number to int, as in C. */
  function Truncated(r: real): int { if r >= 0.0 then r.Floor else -((-r).Floor) }

  function CellOf(s: Space, v: Vec): (c: G.Cell)
    requires SpaceOk(s)
    ensures G.InDomain(s.d, c)
  {
    G.Clamped(s.d, G.Cell(Truncated((v.x - s.min.x) / s.delta.x), Truncated((v.y - s.min.y) / s.delta.y),
        Truncated((v.z - s.min.z) / s.delta.z)))
  }

  function Size(s: Space): nat { s.d.nx * s.d.ny * s.d.nz }

  /** The chain that a particle belongs to. */
  function Dest(s: Space, p: Particle): (i: nat)
    requires SpaceOk(s)
    ensures i < Size(s)
  {
    G.IndexBound(s.d, CellOf(s, p.p));
    G.Index(s.d, CellOf(s, p.p))
  }

  /** A place lies between two grid lines. */
  predicate Between(v: real, min: real, delta: real, i: nat) {
    min + i as real * delta <= v < min + (i + 1) as real * delta
  }

  lemma QuotientBetween(v: real, delta: real, i: nat)
    requires delta > 0.0 && i as real * delta <= v < (i + 1) as real * delta
    ensures i as real <= v / delta < (i + 1) as real
  {
    assert v / delta * delta == v;
    G.Scaled(v / delta, i as real, delta);
    G.Scaled((i + 1) as real, v / delta, delta);
  }

  /** The coordinate of a place in steps of delta: exact, or outside on the same side. */
  lemma StepsAre(v: real, delta: real, i: nat)
    requires delta > 0.0
    ensures i as real * delta <= v < (i + 1) as real * delta ==> Truncated(v / delta) == i
    ensures v < 0.0 ==> Truncated(v / delta) <= 0
    ensures i as real * delta <= v ==> i <= Truncated(v / delta)
  {
    assert v / delta * delta == v;
    if v < 0.0 {
      G.Scaled(0.0, v / delta, delta);
    }
    if i as real * delta <= v {
      G.Scaled(v / delta, i as real, delta);
    }
    if i as real * delta <= v < (i + 1) as real * delta {
      QuotientBetween(v, delta, i);
    }
  }

  /** The place of one coordinate among n columns: between which lines it is, or at which side it left. */
  predicate InColumn(v: real, min: real, delta: real, n: nat, c: int) {
    && (forall i: nat :: i < n && Between(v, min, delta, i) ==> c == i)
    && (v < min ==> c == 0) && (v >= min + n as real * delta ==> c == n - 1)
  }

  lemma ColumnIs(v: real, min: real, delta: real, n: nat)
    requires delta > 0.0 && n > 0
    ensures InColumn(v, min, delta, n, G.Clamp(Truncated((v - min) / delta), n))
  {
    hide Truncated;
    forall i: nat | i < n && Between(v, min, delta, i)
      ensures G.Clamp(Truncated((v - min) / delta), n) == i
    {
      StepsAre(v - min, delta, i);
    }
    StepsAre(v - min, delta, n);
  }

  /** A particle is in the cell whose grid lines it lies between, or if it left the domain in one at that
      side, axis by axis; and the chains are numbered with x running fastest and z slowest. */
  lemma DestIs(s: Space, p: Particle)
    requires SpaceOk(s)
    ensures var c := CellOf(s, p.p);
            && InColumn(p.p.x, s.min.x, s.delta.x, s.d.nx, c.x) && InColumn(p.p.y, s.min.y, s.delta.y, s.d.ny, c.y)
            && InColumn(p.p.z, s.min.z, s.delta.z, s.d.nz, c.z)
            && Dest(s, p) == (c.z * s.d.ny + c.y) * s.d.nx + c.x
  {
    hide InColumn, Truncated;
    ColumnIs(p.p.x, s.min.x, s.delta.x, s.d.nx);
    ColumnIs(p.p.y, s.min.y, s.delta.y, s.d.ny);
    ColumnIs(p.p.z, s.min.z, s.delta.z, s.d.nz);
  }

  /** The particles that belong to chain c, in order. */
  function Select(s: Space, ps: seq<Particle>, c: nat): seq<Particle>
    requires SpaceOk(s)
  {
    if ps == [] then []
    else
      var p := ps[|ps| - 1];
      Select(s, ps[..|ps| - 1], c) + if Dest(s, p) == c then [p] else []
  }

  /** All particles of the first i chains, chain by chain. */
  function Flat(pars: seq<seq<Particle>>, i: nat): seq<Particle>
    requires i <= |pars|
  {
    if i == 0 then [] else Flat(pars, i - 1) + pars[i - 1]
  }

  lemma FlatNext(pars: seq<seq<Particle>>, i: nat)
    requires i < |pars|
    ensures Flat(pars, i + 1) == Flat(pars, i) + pars[i]
  {
  }

  /** Every chain holds what belongs there. */
  predicate Settled(s: Space, dp: seq<seq<Particle>>, ps: seq<Particle>)
    requires SpaceOk(s)
  {
    |dp| == Size(s) && forall c: nat :: c < |dp| ==> dp[c] == Select(s, ps, c)
  }

  lemma SettledMore(s: Space, dp: seq<seq<Particle>>, ps: seq<Particle>, p: Particle)
    requires SpaceOk(s) && Settled(s, dp, ps)
    ensures Dest(s, p) < |dp| && Settled(s, dp[Dest(s, p) := dp[Dest(s, p)] + [p]], ps + [p])
  {
    hide Dest, Size;
    assert (ps + [p])[..|ps|] == ps;
  }

  /** The particles of all chains, as a bag. */
  function Bag(dp: seq<seq<Particle>>): multiset<Particle> {
    if dp == [] then multiset{} else Bag(dp[..|dp| - 1]) + multiset(dp[|dp| - 1])
  }

  function SelectAll(s: Space, ps: seq<Particle>, n: nat): (r: seq<seq<Particle>>)
    requires SpaceOk(s)
    ensures |r| == n && forall c: nat :: c < n ==> r[c] == Select(s, ps, c)
  {
    seq(n, (c: nat) => Select(s, ps, c))
  }

  lemma {:induction false} BagMore(s: Space, ps: seq<Particle>, p: Particle, n: nat)
    requires SpaceOk(s)
    ensures Bag(SelectAll(s, ps + [p], n)) == Bag(SelectAll(s, ps, n)) + if Dest(s, p) < n then multiset{p}
            else multiset{}
  {
    hide Dest, Select, SelectAll;
    if n > 0 {
      BagMore(s, ps, p, n - 1);
      BagLast(s, ps, n);
      BagLast(s, ps + [p], n);
      SelectMore(s, ps, p, n - 1);
    } else {
      assert SelectAll(s, ps, 0) == SelectAll(s, ps + [p], 0) == [];
    }
  }

  lemma SelectMore(s: Space, ps: seq<Particle>, p: Particle, c: nat)
    requires SpaceOk(s)
    ensures Select(s, ps + [p], c) == Select(s, ps, c) + if Dest(s, p) == c then [p] else []
  {
    hide Dest;
    assert (ps + [p])[..|ps|] == ps;
  }

  /** What is selected for a chain are exactly the particles that belong to it. */
  lemma {:induction false} SelectIs(s: Space, ps: seq<Particle>, c: nat)
    requires SpaceOk(s)
    ensures forall p :: p in Select(s, ps, c) <==> p in ps && Dest(s, p) == c
  {
    hide Dest;
    if ps != [] {
      var n := |ps| - 1;
      SelectIs(s, ps[..n], c);
      assert ps == ps[..n] + [ps[n]];
    }
  }

  /** In the order met: of two lists one after the other first those of the first. */
  lemma {:induction false} SelectAppend(s: Space, ps: seq<Particle>, qs: seq<Particle>, c: nat)
    requires SpaceOk(s)
    ensures Select(s, ps + qs, c) == Select(s, ps, c) + Select(s, qs, c)
  {
    hide Dest;
    if qs == [] {
      assert ps + qs == ps;
    } else {
      hide Select;
      var n := |qs| - 1;
      SelectAppend(s, ps, qs[..n], c);
      assert ps + qs == ps + qs[..n] + [qs[n]] && qs == qs[..n] + [qs[n]];
      SelectMore(s, ps + qs[..n], qs[n], c);
      SelectMore(s, qs[..n], qs[n], c);
    }
  }

  lemma BagLast(s: Space, ps: seq<Particle>, n: nat)
    requires SpaceOk(s) && n > 0
    ensures Bag(SelectAll(s, ps, n)) == Bag(SelectAll(s, ps, n - 1)) + multiset(Select(s, ps, n - 1))
  {
    hide Dest, Select;
    assert SelectAll(s, ps, n)[..n - 1] == SelectAll(s, ps, n - 1);
  }

  lemma {:induction false} BagEmpty(s: Space, n: nat)
    requires SpaceOk(s)
    ensures Bag(SelectAll(s, [], n)) == multiset{}
  {
    if n > 0 {
      BagEmpty(s, n - 1);
      assert SelectAll(s, [], n)[..n - 1] == SelectAll(s, [], n - 1);
    }
  }

  /** No particle is lost and none is made. */
  lemma {:induction false} SettledConserves(s: Space, dp: seq<seq<Particle>>, ps: seq<Particle>)
    requires SpaceOk(s) && Settled(s, dp, ps)
    ensures Bag(dp) == multiset(ps)
  {
    hide Dest, Size, Select;
    assert dp == SelectAll(s, ps, Size(s));
    SelectConserves(s, ps);
  }

  lemma {:induction false} SelectConserves(s: Space, ps: seq<Particle>)
    requires SpaceOk(s)
    ensures Bag(SelectAll(s, ps, Size(s))) == multiset(ps)
  {
    hide Dest, Size, Select;
    if ps == [] {
      BagEmpty(s, Size(s));
    } else {
      var n := |ps| - 1;
      SelectConserves(s, ps[..n]);
      assert ps == ps[..n] + [ps[n]];
      BagMore(s, ps[..n], ps[n], Size(s));
    }
  }

  lemma {:induction false} FlatBag(pars: seq<seq<Particle>>)
    ensures multiset(Flat(pars, |pars|)) == Bag(pars)
  {
    if pars != [] {
      var n := |pars| - 1;
      FlatBag(pars[..n]);
      FlatPrefix(pars, n, n);
    }
  }

  lemma {:induction false} FlatPrefix(pars: seq<seq<Particle>>, n: nat, i: nat)
    requires i <= n <= |pars|
    ensures Flat(pars[..n], i) == Flat(pars, i)
  {
    if i > 0 {
      FlatPrefix(pars, n, i - 1);
    }
  }

  predicate First(p: Place) { (p.Source? || p.Target?) && p.k == 0 }

  /** The blocks of the pool are those that are no first block of a chain. */
  ghost predicate OwnedBy(place: map<Block, Place>, all: set<Block>) {
    && (forall b :: b in all ==> b in place)
    && (forall b :: b in place ==> (b in all <==> !First(place[b])))
  }

  lemma TurnedOwned(l: Layout, all: set<Block>)
    requires OwnedBy(l.place, all) && forall c :: 0 <= c < |l.src| ==> l.src[c] != []
    ensures OwnedBy(Turned(l).place, all) && Turned(l).place.Keys == l.place.Keys
  {
  }

  lemma OwnedIn(place: map<Block, Place>, all: set<Block>)
    requires OwnedBy(place, all)
    ensures forall b :: b in all ==> b in place
  {
  }

  /** The block that the pool gives stays a block of the pool. */
  lemma GotOwned(l: Layout, free: seq<Block>, b: Block, c: nat, all: set<Block>, all': set<Block>)
    requires c < |l.dst| && l.dst[c] != [] && (l.free != [] ==> l.free == free + [b]) && OwnedBy(l.place, all)
    requires if l.free == [] then forall x :: x in all' <==> x in all || x in free || x == b else all' == all
    requires forall x :: x in l.free ==> x in l.place && l.place[x] == Pooled
    requires l.free == [] ==> forall x :: x in free || x == b ==> x !in l.place
    ensures OwnedBy(Got(l, free, b, c).place, all')
  {
    GotIs(l, free, b, c);
    assert l.free != [] ==> l.free[|free|] == b && b in l.free;
  }

  lemma TurnedIs(l: Layout)
    requires forall c :: 0 <= c < |l.src| ==> l.src[c] != []
    ensures Turned(l).free == l.free && Turned(l).src == l.dst && |Turned(l).dst| == |l.src|
    ensures forall c :: 0 <= c < |l.src| ==> Turned(l).dst[c] == [l.src[c][0]]
  {
  }

  class Sim {
    const space: Space
    const pool: Pool
    var cells: seq<Block>
    var cells2: seq<Block>
    var cnumPars: seq<nat>
    var cnumPars2: seq<nat>
    var last: seq<Block>

    /** The chains of the two grids, what is in them, and where each block is. */
    ghost var src: seq<seq<Block>>
    ghost var dst: seq<seq<Block>>
    ghost var srcPars: seq<seq<Particle>>
    ghost var dstPars: seq<seq<Particle>>
    ghost var place: map<Block, Place>

    ghost function L(): Layout
      reads this, pool
    {
      Layout(place, pool.free, src, dst)
    }

    /** A chain of the new grid; chain e has room for one more particle. */
    ghost predicate TargetOk(c: nat, e: nat)
      requires c < |dst| == |dstPars| == |last| == |cells| == |cnumPars|
      reads this, place.Keys
    {
      && (forall k: nat :: k < |dst[c]| ==> dst[c][k] in place)
      && ChainFrom(dst[c], dstPars[c], 0)
      && |dst[c]| == Blocks(if c == e then |dstPars[c]| + 1 else |dstPars[c]|)
      && cells[c] == dst[c][0] && last[c] == dst[c][|dst[c]| - 1] && cnumPars[c] == |dstPars[c]|
    }

    /** A chain of the old grid, of which j particles have been moved if it is chain i. */
    ghost predicate SourceOk(c: nat, i: nat, j: nat)
      requires c < |src| == |srcPars| == |cells2| == |cnumPars2|
      reads this, place.Keys
    {
      && (forall k: nat :: (if c == i then j / 16 else 0) <= k < |src[c]| ==> src[c][k] in place)
      && ChainFrom(src[c], srcPars[c], if c == i then j else 0)
      && |src[c]| == Blocks(|srcPars[c]|) && cnumPars2[c] == |srcPars[c]|
    }

    ghost predicate Sizes()
      reads this
    {
      && SpaceOk(space)
      && |src| == |srcPars| == |cells2| == |cnumPars2| == Size(space)
      && |dst| == |dstPars| == |last| == |cells| == |cnumPars| == Size(space)
    }

    ghost predicate Owned()
      reads this, pool
    {
      OwnedBy(place, pool.all)
    }

    /** When all particles of the chains before i and j particles of chain i have been moved;
        chain e of the new grid may have room for one more particle than it needs. */
    ghost predicate State(i: nat, j: nat, e: nat)
      reads this, pool, pool.free, place.Keys
    {
      && Sizes() && Placed(L(), i, j) && pool.Valid() && Owned()
      && AllTargets(e) && AllSources(i, j) && Firsts() && AllSized()
    }

    ghost predicate AllTargets(e: nat)
      requires Sizes()
      reads this, place.Keys
    {
      forall c: nat :: c < |dst| ==> TargetOk(c, e)
    }

    ghost predicate AllSources(i: nat, j: nat)
      requires Sizes()
      reads this, place.Keys
    {
      forall c: nat :: i <= c < |src| ==> SourceOk(c, i, j)
    }

    ghost predicate Firsts()
      requires Sizes()
      reads this
    {
      forall c: nat :: c < |src| ==> src[c] != [] && cells2[c] == src[c][0]
    }

    ghost predicate AllSized()
      reads this, place.Keys
    {
      forall b :: b in place ==> |b.pars| == PARTICLES_PER_CELL
    }

    ghost predicate Valid()
      reads this, pool, pool.free, place.Keys
    {
      State(Size(space), 0, Size(space))
    }

    constructor (space: Space, particles: nat)
      requires SpaceOk(space)
      ensures Valid() && this.space == space && forall c :: 0 <= c < |dstPars| ==> dstPars[c] == []
      ensures fresh(pool) && fresh(place.Keys)
    {
      this.space := space;
      pool := new Pool(particles);
      var a := NewBlocks(Size(space));
      var b := NewBlocks(Size(space));
      cells, cells2, last := a, b, a;
      cnumPars, cnumPars2 := seq(Size(space), _ => 0), seq(Size(space), _ => 0);
      dstPars, srcPars := seq(Size(space), _ => []), seq(Size(space), _ => []);
      dst, src := seq(|a|, (i: nat) requires i < |a| => [a[i]]), seq(|b|, (i: nat) requires i < |b| => [b[i]]);
      new;
      place := Begin(pool.free, a, b);
      Begun();
    }

    lemma PoolSized()
      requires pool.Valid()
      ensures Distinct(pool.free) && forall b :: b in pool.free ==> |b.pars| == PARTICLES_PER_CELL
    {
      StackedSizes(pool.free);
    }

    /** No particle yet: single blocks, and the pool. */
    lemma Begun()
      requires Sizes() && pool.Valid() && Distinct(cells) && Distinct(cells2)
      requires (forall b :: b in cells ==> b !in cells2) && (forall b :: b in pool.free ==> b !in cells && b !in cells2)
      requires forall b :: b in pool.all <==> b in pool.free
      requires place == Begin(pool.free, cells, cells2) && last == cells
      requires forall b :: b in cells + cells2 ==> b.next == null && |b.pars| == PARTICLES_PER_CELL
      requires forall c: nat :: c < |dst| ==> dst[c] == [cells[c]] && dstPars[c] == [] && cnumPars[c] == 0
      requires forall c: nat :: c < |src| ==> src[c] == [cells2[c]] && srcPars[c] == [] && cnumPars2[c] == 0
      ensures Valid()
    {
      hide Size, SpaceOk, Pool.Valid, Placed, Distinct;
      PoolSized();
      BeginPlaced(L(), cells, cells2);
      forall c: nat | c < |dst|
        ensures TargetOk(c, Size(space))
      {
        assert LinkAt(dst[c], 0);
      }
    }

    /** The blocks of a chain are its own. */
    lemma Apart(i: nat, j: nat, e: nat, c: nat, k: nat, b: Block)
      requires State(i, j, e) && c < |dst| && k < |dst[c]| && b == dst[c][k]
      ensures b in place && place[b] == Target(c, k) && b !in pool.free
      ensures forall m: nat :: m < |dst[c]| && m != k ==> dst[c][m] != b
      ensures forall d: nat :: d < |dst| && d != c ==> b !in dst[d]
      ensures forall d: nat, m: nat :: d < |src| && m < |src[d]| && Live(i, j, d, m) ==> b != src[d][m]
    {
      hide Live, ChainFrom, Size, SpaceOk;
      assert TargetAt(L(), c, k);
      forall m: nat | m < |dst[c]| && m != k
        ensures dst[c][m] != b
      {
        assert TargetAt(L(), c, m);
      }
      forall d: nat | d < |dst| && d != c
        ensures b !in dst[d]
      {
        forall m: nat | m < |dst[d]|
          ensures dst[d][m] != b
        {
          assert TargetAt(L(), d, m);
        }
      }
      forall d: nat, m: nat | d < |src| && m < |src[d]| && Live(i, j, d, m)
        ensures b != src[d][m]
      {
        assert SourceAt(L(), d, m);
      }
    }

    lemma FreeApart(i: nat, j: nat, e: nat, b: Block)
      requires State(i, j, e) && b in pool.free
      ensures b in place && place[b] == Pooled
      ensures forall d: nat :: d < |dst| ==> b !in dst[d]
      ensures forall d: nat, m: nat :: d < |src| && m < |src[d]| && Live(i, j, d, m) ==> b != src[d][m]
    {
      hide Live, ChainFrom, Size, SpaceOk;
      forall d: nat | d < |dst|
        ensures b !in dst[d]
      {
        forall m: nat | m < |dst[d]|
          ensures dst[d][m] != b
        {
          assert TargetAt(L(), d, m);
        }
      }
      forall d: nat, m: nat | d < |src| && m < |src[d]| && Live(i, j, d, m)
        ensures b != src[d][m]
      {
        assert SourceAt(L(), d, m);
      }
    }

    /** A block for chain c, not linked yet. */
    method FetchBlock(ghost i: nat, ghost j: nat, c: nat) returns (b: Block)
      requires State(i, j, Size(space)) && c < Size(space)
      modifies this`place, pool, if pool.free == [] then {} else {pool.free[|pool.free| - 1]}
      ensures Sizes() && Placed(L().(dst := dst[c := dst[c] + [b]]), i, j) && pool.Valid() && Owned()
      ensures AllTargets(Size(space)) && AllSources(i, j)
      ensures b.next == null && b in place && old(place.Keys) <= place.Keys
      ensures forall d: nat :: d < |dst| ==> b !in dst[d]
      ensures forall d: nat, m: nat :: d < |src| && m < |src[d]| && Live(i, j, d, m) ==> b != src[d][m]
      ensures AllSized()
      ensures forall x :: x in place && x !in old(place) ==> fresh(x)
      ensures forall x :: x in pool.free ==> x in old(pool.free) || fresh(x)
    {
      hide Live, ChainFrom, Placed, Size, SpaceOk, Owned, Pool.Valid;
      PlacedFree(L(), i, j);
      if pool.free != [] {
        FreeApart(i, j, Size(space), pool.free[|pool.free| - 1]);
      }
      assert TargetOk(c, Size(space));
      InPlace(i, j, Size(space));
      b := GetPlaced(i, j, c);
      forall d: nat | d < |dst|
        ensures TargetOk(d, Size(space))
      {
        assert old(TargetOk(d, Size(space)));
      }
      forall d: nat | i <= d < |src|
        ensures SourceOk(d, i, j)
      {
        assert old(SourceOk(d, i, j));
        LiveFrom(i, j, d);
      }
    }

    lemma SizedAfter(l: Layout, free: seq<Block>, b: Block, c: nat)
      requires c < |l.dst| && (l.free != [] ==> l.free == free + [b]) && place == Got(l, free, b, c).place
      requires |b.pars| == PARTICLES_PER_CELL && Stacked(free)
      requires forall x :: x in l.place ==> |x.pars| == PARTICLES_PER_CELL
      ensures AllSized()
    {
      hide Got, Stacked;
      GotIs(l, free, b, c);
      StackedSizes(free);
    }

    lemma InPlace(i: nat, j: nat, e: nat)
      requires State(i, j, e)
      ensures forall d: nat, m: nat :: d < |dst| && m < |dst[d]| ==> dst[d][m] in place
      ensures forall d: nat, m: nat :: d < |src| && m < |src[d]| && Live(i, j, d, m) ==> src[d][m] in place
    {
      hide ChainFrom, Live;
      forall d: nat, m: nat | d < |dst| && m < |dst[d]|
        ensures dst[d][m] in place
      {
        assert TargetAt(L(), d, m);
      }
      forall d: nat, m: nat | d < |src| && m < |src[d]| && Live(i, j, d, m)
        ensures src[d][m] in place
      {
        assert SourceAt(L(), d, m);
      }
    }

    /** A block is appended to a full chain. */
    method Extend(ghost i: nat, ghost j: nat, c: nat)
      requires State(i, j, Size(space)) && c < Size(space) && cnumPars[c] % 16 == 0 && cnumPars[c] != 0
      modifies this`last, this`place, this`dst, pool, place.Keys
      ensures State(i, j, c) && old(place.Keys) <= place.Keys
      ensures forall b :: b in place && b !in old(place) ==> fresh(b)
    {
      hide Live, ChainFrom, Placed, Size, SpaceOk, Owned, Pool.Valid;
      PlacedFree(L(), i, j);
      var cell := last[c];
      assert TargetOk(c, Size(space));
      ghost var chain, k: nat := dst[c], |dst[c]| - 1;
      Apart(i, j, Size(space), c, k, cell);
      var b := FetchBlock(i, j, c);
      assert TargetOk(c, Size(space));
      LinkLast(i, j, c, cell, b);
    }

    method LinkLast(ghost i: nat, ghost j: nat, c: nat, cell: Block, b: Block)
      requires Sizes() && c < |dst| && Placed(L().(dst := dst[c := dst[c] + [b]]), i, j) && pool.Valid() && Owned()
      requires AllTargets(Size(space)) && AllSources(i, j) && Firsts() && AllSized()
      requires cnumPars[c] % 16 == 0 && cnumPars[c] != 0
      requires dst[c] != [] && cell == dst[c][|dst[c]| - 1] && cell !in pool.free && b.next == null && b in place
      requires forall d: nat :: d < |dst| ==> b !in dst[d]
      requires forall m: nat :: m < |dst[c]| - 1 ==> dst[c][m] != cell
      requires forall d: nat :: d < |dst| && d != c ==> cell !in dst[d]
      requires forall d: nat, m: nat :: d < |src| && m < |src[d]| && Live(i, j, d, m) ==> cell != src[d][m]
      modifies this`last, this`dst, cell`next
      ensures State(i, j, c)
    {
      hide Live, ChainFrom, Placed, Size, SpaceOk, Pool.Valid;
      assert TargetOk(c, Size(space));
      LinkBehind(cell, b, dst[c], dstPars[c]);
      last := last[c := b];
      dst := dst[c := dst[c] + [b]];
      forall d: nat | d < |dst|
        ensures TargetOk(d, c)
      {
        assert old(TargetOk(d, Size(space)));
      }
      forall d: nat | i <= d < |src|
        ensures SourceOk(d, i, j)
      {
        assert old(SourceOk(d, i, j));
        LiveFrom(i, j, d);
      }
    }

    /** A chain that is not full has room. */
    lemma Roomy(i: nat, j: nat, c: nat)
      requires State(i, j, Size(space)) && c < Size(space) && !(cnumPars[c] % 16 == 0 && cnumPars[c] != 0)
      ensures State(i, j, c)
    {
      hide Live, ChainFrom, Placed, Size, SpaceOk, Pool.Valid, Owned;
      assert TargetOk(c, Size(space));
      forall d: nat | d < |dst|
        ensures TargetOk(d, c)
      {
        assert TargetOk(d, Size(space));
      }
    }

    /** The particle is written behind the others of chain c. */
    method Put(ghost i: nat, ghost j: nat, c: nat, par: Particle)
      requires State(i, j, c) && c < Size(space)
      modifies this`cnumPars, this`dstPars, place.Keys
      ensures State(i, j, Size(space)) && dstPars == old(dstPars)[c := old(dstPars)[c] + [par]]
    {
      hide Live, ChainFrom, Placed, Size, SpaceOk, Pool.Valid;
      PlacedFree(L(), i, j);
      var cell := last[c];
      assert TargetOk(c, c);
      ghost var k: nat := |dst[c]| - 1;
      Apart(i, j, c, c, k, cell);
      PutInto(cell, par, dst[c], dstPars[c], cnumPars[c] % 16);
      dstPars := dstPars[c := dstPars[c] + [par]];
      cnumPars := cnumPars[c := cnumPars[c] + 1];
      forall d: nat | d < |dst|
        ensures TargetOk(d, Size(space))
      {
        assert old(TargetOk(d, c));
      }
      forall d: nat | i <= d < |src|
        ensures SourceOk(d, i, j)
      {
        assert old(SourceOk(d, i, j));
        LiveFrom(i, j, d);
      }
    }

    /** The body of the loop that handles the new grid. */
    method AddParticle(ghost i: nat, ghost j: nat, c: nat, par: Particle)
      requires State(i, j, Size(space)) && c < Size(space)
      modifies this`last, this`place, this`dst, this`cnumPars, this`dstPars, pool, place.Keys
      ensures State(i, j, Size(space)) && dstPars == old(dstPars)[c := old(dstPars)[c] + [par]]
      ensures old(place.Keys) <= place.Keys && forall b :: b in place && b !in old(place) ==> fresh(b)
    {
      hide Sim.State, Size;
      StateSizes(i, j, Size(space));
      if cnumPars[c] % 16 == 0 && cnumPars[c] != 0 {
        Extend(i, j, c);
      } else {
        Roomy(i, j, c);
      }
      Put(i, j, c, par);
    }

    /** What is left of the old grid is as it was. */
    lemma Onward(i: nat, j: nat, i': nat, j': nat)
      requires State(i, j, Size(space)) && ((i' == i && j' >= j) || (i' > i && j' == 0))
      ensures AllSources(i', j')
    {
      hide Live, ChainFrom, Placed, Size, SpaceOk, Pool.Valid, Owned;
      forall d: nat | i' <= d < |src|
        ensures SourceOk(d, i', j')
      {
        assert SourceOk(d, i, j);
        ChainLater(src[d], srcPars[d], if d == i then j else 0, if d == i' then j' else 0);
      }
    }

    /** Block k of the old chain c goes back to the pool. */
    method GiveBack(ghost i: nat, ghost j: nat, ghost i': nat, ghost j': nat, ghost c: nat, ghost k: nat, b: Block)
      requires State(i, j, Size(space)) && c < |src| && 0 < k < |src[c]| && b == src[c][k] && Live(i, j, c, k)
      requires OnlyLeaves(L(), i, j, i', j', c, k) && ((i' == i && j' >= j) || (i' > i && j' == 0))
      modifies this`place, pool, b`next
      ensures State(i', j', Size(space)) && place.Keys == old(place.Keys)
    {
      hide Live, ChainFrom, Placed, Size, SpaceOk, OnlyLeaves;
      Onward(i, j, i', j');
      SourceApart(i, j, c, k, b);
      Remain(i, j, i', j', c, k, b);
      FreedPlaced(L(), i, j, i', j', c, k);
      ghost var l := L();
      pool.ReturnCell(b);
      place := place[b := Pooled];
      assert L() == Freed(l, b);
      forall d: nat | d < |dst|
        ensures TargetOk(d, Size(space))
      {
        assert old(TargetOk(d, Size(space)));
      }
      forall d: nat | i' <= d < |src|
        ensures SourceOk(d, i', j')
      {
        assert old(SourceOk(d, i', j'));
      }
    }

    lemma SourceApart(i: nat, j: nat, c: nat, k: nat, b: Block)
      requires State(i, j, Size(space)) && c < |src| && k < |src[c]| && b == src[c][k] && Live(i, j, c, k)
      ensures b in place && place[b] == Source(c, k) && b !in pool.free && |b.pars| == PARTICLES_PER_CELL
      ensures forall d: nat :: d < |dst| ==> b !in dst[d]
      ensures k != 0 ==> b in pool.all && b != cells2[c]
    {
      hide Live, ChainFrom, Size, SpaceOk, Pool.Valid;
      assert SourceAt(L(), c, k);
      assert Live(i, j, c, 0) by {
        LiveFirst(i, j, c);
      }
      assert SourceAt(L(), c, 0);
      forall d: nat | d < |dst|
        ensures b !in dst[d]
      {
        forall m: nat | m < |dst[d]|
          ensures dst[d][m] != b
        {
          assert TargetAt(L(), d, m);
        }
      }
    }

    lemma Remain(i: nat, j: nat, i': nat, j': nat, c: nat, k: nat, b: Block)
      requires State(i, j, Size(space)) && c < |src| && k < |src[c]| && b == src[c][k] && Live(i, j, c, k)
      requires OnlyLeaves(L(), i, j, i', j', c, k)
      ensures forall d: nat, m: nat :: i' <= d < |src| && (if d == i' then j' / 16 else 0) <= m < |src[d]| ==>
              b != src[d][m]
    {
      hide Live, ChainFrom, Size, SpaceOk, Pool.Valid;
      forall d: nat, m: nat | i' <= d < |src| && (if d == i' then j' / 16 else 0) <= m < |src[d]|
        ensures b != src[d][m]
      {
        LiveFrom(i', j', d);
        assert Live(i', j', d, m);
        assert SourceAt(L(), d, m);
        assert SourceAt(L(), c, k);
      }
    }

    /** The pointer into the old chain moves on; a block that has been read is given back, the first not. */
    method Advance(ghost i: nat, j: nat, chain: nat, cell2: Block) returns (after: Block?)
      requires State(i, j, Size(space)) && i == chain < |src| && j < |srcPars[i]| && j / 16 < |src[i]|
      requires cell2 == src[i][j / 16]
      modifies this`place, pool, cell2`next
      ensures State(i, j + 1, Size(space)) && after == At(src[i], (j + 1) / 16) && place.Keys == old(place.Keys)
    {
      hide Live, Placed, Size, SpaceOk, OnlyLeaves, NoneLeaves, Pool.Valid, Owned;
      assert SourceOk(i, i, j);
      assert LinkAt(src[i], j / 16);
      ghost var k := j / 16;
      StepLeaves(L(), i, j);
      HeadIs(i, j, k);
      after := cell2;
      if j % 16 == 15 {
        var temp := cell2;
        after := cell2.next;
        if temp != cells2[chain] {
          GiveBack(i, j, i, j + 1, i, k, temp);
        } else {
          Unchanged(i, j, i, j + 1);
        }
      } else {
        Unchanged(i, j, i, j + 1);
      }
    }

    lemma Unchanged(i: nat, j: nat, i': nat, j': nat)
      requires State(i, j, Size(space)) && NoneLeaves(L(), i, j, i', j')
      requires (i' == i && j' >= j) || (i' > i && j' == 0)
      ensures State(i', j', Size(space))
    {
      hide Live, Placed, ChainFrom, Size, SpaceOk, NoneLeaves, Pool.Valid, Owned;
      Onward(i, j, i', j');
      StillPlaced(L(), i, j, i', j');
    }

    lemma HeadIs(i: nat, j: nat, k: nat)
      requires State(i, j, Size(space)) && i < |src| && k < |src[i]| && j / 16 <= k
      ensures Live(i, j, i, k) && (src[i][k] == cells2[i] <==> k == 0)
    {
      hide ChainFrom, Size, SpaceOk, Pool.Valid, Owned;
      assert SourceAt(L(), i, k);
      assert SourceAt(L(), i, 0);
    }

    /** The loop over the particles of chain i. */
    method MoveChain(i: nat)
      requires State(i, 0, Size(space)) && i < |srcPars| && Settled(space, dstPars, Flat(srcPars, i))
      modifies this`last, this`place, this`dst, this`cnumPars, this`dstPars, pool, place.Keys
      ensures State(i + 1, 0, Size(space)) && Settled(space, dstPars, Flat(srcPars, i + 1))
      ensures old(place.Keys) <= place.Keys && forall b :: b in place && b !in old(place) ==> fresh(b)
    {
      hide Sim.State, Size, SpaceOk, Settled, Flat, Dest;
      ghost var pars := srcPars[i];
      StartChain(i);
      var cell2: Block? := cells2[i];
      var np2 := cnumPars2[i];
      assert Flat(srcPars, i) + pars[..0] == Flat(srcPars, i);
      for j := 0 to np2
        invariant State(i, j, Size(space)) && cell2 == At(src[i], j / 16)
        invariant Settled(space, dstPars, Flat(srcPars, i) + pars[..j])
        invariant old(place.Keys) <= place.Keys && forall b :: b in place && b !in old(place) ==> fresh(b)
      {
        ReadSlot(i, j, cell2);
        var par := cell2.pars[j % 16];
        SettledMore(space, dstPars, Flat(srcPars, i) + pars[..j], par);
        AddParticle(i, j, Dest(space, par), par);
        cell2 := Advance(i, j, i, cell2);
        assert Flat(srcPars, i) + pars[..j] + [par] == Flat(srcPars, i) + pars[..j + 1];
      }
      assert pars[..np2] == pars;
      EndChain(i, cell2);
      FlatNext(srcPars, i);
    }

    lemma StartChain(i: nat)
      requires State(i, 0, Size(space)) && i < |srcPars|
      ensures Sizes() && src[i] != [] && cells2[i] == src[i][0] && cnumPars2[i] == |srcPars[i]|
      ensures |src[i]| == Blocks(|srcPars[i]|)
    {
      assert SourceOk(i, i, 0);
    }

    lemma ReadSlot(i: nat, j: nat, cell2: Block?)
      requires State(i, j, Size(space)) && i < |srcPars| && j < |srcPars[i]| && cell2 == At(src[i], j / 16)
      ensures j / 16 < |src[i]| && cell2 == src[i][j / 16] && cell2 in place
      ensures |cell2.pars| == PARTICLES_PER_CELL && cell2.pars[j % 16] == srcPars[i][j]
    {
      assert SourceOk(i, i, j);
      assert SlotAt(src[i], srcPars[i], j);
    }

    /** The last block of a chain is given back after the loop, if it has not been. */
    method EndChain(i: nat, cell2: Block?)
      requires i < |srcPars| == |cells2| && State(i, |srcPars[i]|, Size(space))
      requires cell2 == At(src[i], |srcPars[i]| / 16)
      modifies this`place, pool, place.Keys
      ensures State(i + 1, 0, Size(space)) && place.Keys == old(place.Keys)
    {
      hide Live, Placed, Size, SpaceOk, OnlyLeaves, NoneLeaves, Pool.Valid, Owned, ChainFrom;
      ghost var n := |srcPars[i]|;
      assert SourceOk(i, i, n);
      EndLeaves(L(), i, n);
      if n / 16 < |src[i]| {
        HeadIs(i, n, n / 16);
      }
      if cell2 != null && cell2 != cells2[i] {
        GiveBack(i, n, i + 1, 0, i, n / 16, cell2);
      } else {
        Unchanged(i, n, i + 1, 0);
      }
    }

    /** The grids change roles, and every chain of the new one becomes a single empty block. */
    method TurnGrids()
      requires Valid()
      modifies this, place.Keys
      ensures State(0, 0, Size(space)) && srcPars == old(dstPars) && dstPars == seq(|old(dstPars)|, _ => [])
      ensures place.Keys == old(place.Keys)
    {
      hide Sim.Ready, Sim.State;
      Swap();
      ResetChains();
    }

    method Swap()
      requires Valid()
      modifies this`cells, this`cells2, this`cnumPars, this`cnumPars2, this`place, this`src, this`dst, this`srcPars
      modifies this`dstPars
      ensures Ready(0) && srcPars == old(dstPars) && dstPars == seq(|old(dstPars)|, _ => [])
      ensures place.Keys == old(place.Keys)
    {
      hide Live, Size, SpaceOk, ChainFrom, Pool.Valid, Placed, OwnedBy, Sim.AllSources, Sim.Firsts, Sim.TargetOk;
      TurnedSources();
      ghost var l := Turned(L());
      TurnedPlaced(L());
      TurnedOwned(L(), pool.all);
      TurnedIs(L());
      hide Turned;
      cells, cells2 := cells2, cells;
      cnumPars, cnumPars2 := seq(|cnumPars2|, _ => 0), cnumPars;
      srcPars, dstPars := dstPars, seq(|dstPars|, _ => []);
      place, src, dst := l.place, l.src, l.dst;
      assert L() == l;
      SourcesFrom();
    }

    /** Chain c, if it is in both grids' terms the same. */
    predicate Carried(cells: seq<Block>, counts: seq<nat>, chains: seq<seq<Block>>, pars: seq<seq<Particle>>, c: nat)
      requires c < |cells| == |counts| == |chains| == |pars|
    {
      |chains[c]| == Blocks(|pars[c]|) && cells[c] == chains[c][0] && counts[c] == |pars[c]|
    }

    lemma SourcesFrom()
      requires Sizes() && forall c: nat :: c < |src| ==> Carried(cells2, cnumPars2, src, srcPars, c)
      requires forall c: nat, k: nat :: c < |src| && k < |src[c]| ==> src[c][k] in place
      requires forall c: nat :: c < |src| ==> ChainFrom(src[c], srcPars[c], 0)
      ensures AllSources(0, 0) && Firsts()
    {
      hide Size, SpaceOk, ChainFrom;
      forall c: nat | c < |src|
        ensures SourceOk(c, 0, 0) && src[c] != [] && cells2[c] == src[c][0]
      {
        assert Carried(cells2, cnumPars2, src, srcPars, c);
      }
    }

    lemma TurnedSources()
      requires Valid()
      ensures forall c: nat :: c < |src| ==> src[c] != [] && cells2[c] == src[c][0]
      ensures forall c: nat :: c < |dst| ==> Carried(cells, cnumPars, dst, dstPars, c)
      ensures forall c: nat, k: nat :: c < |dst| && k < |dst[c]| ==> dst[c][k] in place
      ensures forall c: nat :: c < |dst| ==> ChainFrom(dst[c], dstPars[c], 0)
    {
      hide Size, SpaceOk, ChainFrom, Placed, OwnedBy, Pool.Valid;
      forall c: nat | c < |dst|
        ensures Carried(cells, cnumPars, dst, dstPars, c) && ChainFrom(dst[c], dstPars[c], 0)
        ensures forall k: nat :: k < |dst[c]| ==> dst[c][k] in place
      {
        assert TargetOk(c, Size(space));
      }
    }

    /** All chains of the new grid are single blocks, and those before i are ready. */
    ghost predicate Ready(i: nat)
      reads this, pool, pool.free, place.Keys
    {
      && Sizes() && Placed(L(), 0, 0) && pool.Valid() && Owned() && AllSources(0, 0) && Firsts() && AllSized()
      && (forall c: nat :: c < |dst| ==> dst[c] == [cells[c]] && dstPars[c] == [] && cnumPars[c] == 0)
      && (forall c: nat :: c < i && c < |dst| ==> cells[c] in place && cells[c].next == null && last[c] == cells[c])
    }

    method ResetChains()
      requires Ready(0)
      modifies this`last, place.Keys
      ensures State(0, 0, Size(space))
    {
      for i := 0 to |cells|
        invariant Ready(i)
      {
        ResetChain(i);
      }
      ReadyState();
    }

    method ResetChain(i: nat)
      requires Ready(i) && i < |cells|
      modifies this`last, place.Keys
      ensures Ready(i + 1)
    {
      hide Live, Size, SpaceOk, ChainFrom, Pool.Valid;
      var b := cells[i];
      PlacedFree(L(), 0, 0);
      assert dst[i][0] == b;
      assert TargetAt(L(), i, 0);
      b.next := null;
      last := last[i := b];
      forall d: nat | d < |src|
        ensures SourceOk(d, 0, 0)
      {
        assert old(SourceOk(d, 0, 0));
        LiveFrom(0, 0, d);
        forall k: nat | k < |src[d]|
          ensures src[d][k] != b
        {
          assert SourceAt(L(), d, k);
        }
      }
    }

    lemma ReadyState()
      requires Ready(|cells|)
      ensures State(0, 0, Size(space))
    {
      hide Live, Size, SpaceOk, Pool.Valid, Placed, Owned, Sim.AllSources;
      forall c: nat | c < |dst|
        ensures TargetOk(c, Size(space))
      {
        assert LinkAt(dst[c], 0);
      }
    }

    /** RebuildGrid: afterwards every particle is in the chain of its cell, in the order in which the
        particles were met, no chain is longer than it must be, and all other blocks are in the pool. */
    method RebuildGrid()
      requires Valid()
      modifies this, pool, place.Keys
      ensures Valid() && Settled(space, dstPars, Flat(old(dstPars), |old(dstPars)|))
      ensures Bag(dstPars) == Bag(old(dstPars))
      ensures old(place.Keys) <= place.Keys && forall b :: b in place && b !in old(place) ==> fresh(b)
    {
      hide Sim.State, Size, SpaceOk, Settled, Flat, Bag;
      TurnGrids();
      StateSizes(0, 0, Size(space));
      NoneSettled();
      ghost var start := place.Keys;
      for i := 0 to |cells2|
        invariant State(i, 0, Size(space)) && srcPars == old(dstPars) && Sizes()
        invariant Settled(space, dstPars, Flat(srcPars, i))
        invariant start <= place.Keys && forall b :: b in place && b !in start ==> fresh(b)
      {
        MoveChain(i);
        StateSizes(i + 1, 0, Size(space));
      }
      SettledConserves(space, dstPars, Flat(srcPars, |srcPars|));
      FlatBag(srcPars);
    }

    lemma NoneSettled()
      requires Sizes() && dstPars == seq(Size(space), _ => [])
      ensures Settled(space, dstPars, Flat(srcPars, 0))
    {
    }

    lemma StateSizes(i: nat, j: nat, e: nat)
      requires State(i, j, e)
      ensures Sizes()
    {
    }

    /** The pool gives a block, which gets its place behind chain c. */
    method GetPlaced(ghost i: nat, ghost j: nat, c: nat) returns (b: Block)
      requires Placed(L(), i, j) && pool.Valid() && Owned() && AllSized() && c < |dst| && dst[c] != []
      modifies this`place, pool, if pool.free == [] then {} else {pool.free[|pool.free| - 1]}
      ensures Placed(L().(dst := dst[c := dst[c] + [b]]), i, j) && pool.Valid() && Owned()
      ensures b.next == null && b in place && old(place.Keys) <= place.Keys
      ensures if old(pool.free) == [] then fresh(b) else b == old(pool.free[|pool.free| - 1])
      ensures AllSized()
      ensures forall x :: x in place && x !in old(place) ==> fresh(x)
      ensures forall x :: x in pool.free ==> x in old(pool.free) || fresh(x)
    {
      hide Placed, Stacked, Top, Got, Distinct, OwnedBy;
      ghost var l := L();
      PlacedFree(l, i, j);
      OwnedIn(place, pool.all);
      b := pool.GetCell();
      DistinctPush(pool.free, b);
      GotOwned(l, pool.free, b, c, old(pool.all), pool.all);
      assert forall x :: x in l.place ==> |x.pars| == PARTICLES_PER_CELL;
      GotPlaced(l, i, j, pool.free, b, c);
      GotIs(l, pool.free, b, c);
      place := Got(l, pool.free, b, c).place;
      SizedAfter(l, pool.free, b, c);
    }
  }

  /** Block k of a chain, or the null pointer behind it. */
  function At(chain: seq<Block>, k: nat): Block? { if k < |chain| then chain[k] else null }

  /** A step to the next particle leaves a block if it was the last particle there. */
  lemma StepLeaves(l: Layout, i: nat, j: nat)
    requires i < |l.src|
    ensures j % 16 == 15 && j / 16 > 0 ==> OnlyLeaves(l, i, j, i, j + 1, i, j / 16)
    ensures !(j % 16 == 15 && j / 16 > 0) ==> NoneLeaves(l, i, j, i, j + 1)
  {
  }

  /** The end of a chain of n particles leaves the last block, if any but the first is left. */
  lemma EndLeaves(l: Layout, i: nat, n: nat)
    requires i < |l.src| && |l.src[i]| == Blocks(n)
    ensures n % 16 != 0 && n / 16 > 0 ==> OnlyLeaves(l, i, n, i + 1, 0, i, n / 16)
    ensures !(n % 16 != 0 && n / 16 > 0) ==> NoneLeaves(l, i, n, i + 1, 0)
  {
  }

  lemma LiveFirst(i: nat, j: nat, d: nat)
    ensures Live(i, j, d, 0)
  {
  }

  lemma LiveFrom(i: nat, j: nat, d: nat)
    requires i <= d
    ensures forall k: nat :: (if d == i then j / 16 else 0) <= k ==> Live(i, j, d, k)
  {
  }

  lemma StackedSizes(s: seq<Block>)
    requires Stacked(s)
    ensures forall b :: b in s ==> |b.pars| == PARTICLES_PER_CELL
  {
    forall b | b in s
      ensures |b.pars| == PARTICLES_PER_CELL
    {
      var k :| 0 <= k < |s| && s[k] == b;
      assert StackedAt(s, k);
    }
  }

  lemma PlacedFree(l: Layout, i: nat, j: nat)
    requires Placed(l, i, j)
    ensures forall b :: b in l.free ==> b in l.place && l.place[b] == Pooled
  {
  }
}
