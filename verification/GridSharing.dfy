/** Which cells the threads of the fluid simulation touch, and why the locks they take are enough. */
module GridSharing {
  import opened Grid

  predicate Near(a: Cell, b: Cell) { -1 <= b.x - a.x <= 1 && -1 <= b.y - a.y <= 1 && -1 <= b.z - a.z <= 1 }

  function Size(d: Dims): nat { d.nx * d.ny * d.nz }

  /** What InitNeighCellList asks of a cell next to c. */
  predicate Takes(d: Dims, counts: seq<nat>, c: Cell, n: Cell)
    requires |counts| == Size(d)
  {
    InDomain(d, n) && Index(d, n) < Index(d, c) && (IndexBound(d, n); counts[Index(d, n)] != 0)
  }

  /** The cell that is the p-th to be looked at. */
  function Visited(c: Cell, p: nat): Cell { Moved(c, p / 9 - 1, p / 3 % 3 - 1, p % 3 - 1) }

  /** The neighbours listed after p cells have been looked at. */
  function Listed(d: Dims, counts: seq<nat>, c: Cell, p: nat): seq<int>
    requires |counts| == Size(d)
  {
    if p == 0 then []
    else
      Listed(d, counts, c, p - 1) + if Takes(d, counts, c, Visited(c, p - 1)) then [Index(d, Visited(c, p - 1))] else []
  }

  /** The 27 places for neighbours are enough: the cell itself is looked at but not listed again. */
  lemma {:induction false} ListedShort(d: Dims, counts: seq<nat>, c: Cell, p: nat)
    requires |counts| == Size(d)
    ensures |Listed(d, counts, c, p)| <= if p > 13 then p - 1 else p
  {
    hide Index;
    if p > 0 {
      ListedShort(d, counts, c, p - 1);
      assert p == 14 ==> Visited(c, 13) == c;
    }
  }

  /** The place of a step among the 27. */
  function Step(di: int, dj: int, dk: int): int { 9 * (di + 1) + 3 * (dj + 1) + (dk + 1) }

  lemma StepIs(c: Cell, di: int, dj: int, dk: int)
    requires -1 <= di <= 1 && -1 <= dj <= 1 && -1 <= dk <= 1
    ensures 0 <= Step(di, dj, dk) < 27 && Visited(c, Step(di, dj, dk)) == Moved(c, di, dj, dk)
  {
  }

  lemma ListedNext(d: Dims, counts: seq<nat>, c: Cell, p: nat)
    requires |counts| == Size(d)
    ensures Listed(d, counts, c, p + 1) ==
            Listed(d, counts, c, p) + if Takes(d, counts, c, Visited(c, p)) then [Index(d, Visited(c, p))] else []
  {
    hide Index, Takes, Visited;
  }

  /** InitNeighCellList */
  method InitNeighCellList(d: Dims, counts: seq<nat>, c: Cell, neighCells: array<int>) returns (num: nat)
    requires |counts| == Size(d) && InDomain(d, c) && neighCells.Length == 27
    modifies neighCells
    ensures num <= 27 && neighCells[..num] == [Index(d, c)] + Listed(d, counts, c, 27)
  {
    hide Index, Takes, Listed, Visited;
    NoneListed(d, counts, c);
    neighCells[0] := Index(d, c);
    num := 1;
    var di := -1;
    while di <= 1
      invariant -1 <= di <= 2 && num <= 27
      invariant neighCells[..num] == [Index(d, c)] + Listed(d, counts, c, Step(di, -1, -1))
    {
      var dj := -1;
      while dj <= 1
        invariant -1 <= dj <= 2 && num <= 27
        invariant neighCells[..num] == [Index(d, c)] + Listed(d, counts, c, Step(di, dj, -1))
      {
        var dk := -1;
        while dk <= 1
          invariant -1 <= dk <= 2 && num <= 27
          invariant neighCells[..num] == [Index(d, c)] + Listed(d, counts, c, Step(di, dj, dk))
        {
          StepIs(c, di, dj, dk);
          num := Consider(d, counts, c, Step(di, dj, dk), Moved(c, di, dj, dk), neighCells, num);
          dk := dk + 1;
        }
        dj := dj + 1;
      }
      di := di + 1;
    }
  }

  lemma NoneListed(d: Dims, counts: seq<nat>, c: Cell)
    requires |counts| == Size(d)
    ensures Listed(d, counts, c, 0) == []
  {
  }

  /** The body of the loops. */
  method Consider(d: Dims, counts: seq<nat>, c: Cell, ghost p: nat, n: Cell, neighCells: array<int>, num: nat)
    returns (num': nat)
    requires |counts| == Size(d) && neighCells.Length == 27 && p < 27 && n == Visited(c, p)
    requires num <= 27 && neighCells[..num] == [Index(d, c)] + Listed(d, counts, c, p)
    modifies neighCells
    ensures num' <= 27 && neighCells[..num'] == [Index(d, c)] + Listed(d, counts, c, p + 1)
  {
    hide Index, Listed, Visited;
    ListedNext(d, counts, c, p);
    ListedShort(d, counts, c, p + 1);
    num' := num;
    if InDomain(d, n) {
      var index := Index(d, n);
      IndexBound(d, n);
      if index < Index(d, c) && counts[index] != 0 {
        neighCells[num] := index;
        num' := num + 1;
      }
    }
  }

  lemma {:induction false} ListedBack(d: Dims, counts: seq<nat>, c: Cell, p: nat, v: int) returns (n: Cell)
    requires |counts| == Size(d) && p <= 27 && v in Listed(d, counts, c, p)
    ensures Near(c, n) && Takes(d, counts, c, n) && Index(d, n) == v && exists q: nat :: q < p && n == Visited(c, q)
  {
    hide Index;
    if v in Listed(d, counts, c, p - 1) {
      n := ListedBack(d, counts, c, p - 1, v);
    } else {
      n := Visited(c, p - 1);
    }
  }

  lemma {:induction false} ListedHas(d: Dims, counts: seq<nat>, c: Cell, p: nat, q: nat)
    requires |counts| == Size(d) && q < p && Takes(d, counts, c, Visited(c, q))
    ensures Index(d, Visited(c, q)) in Listed(d, counts, c, p)
  {
    hide Index;
    if q < p - 1 {
      ListedHas(d, counts, c, p - 1, q);
    }
  }

  /** Exactly the neighbours with a smaller index that have particles are listed. */
  lemma ListedIff(d: Dims, counts: seq<nat>, c: Cell, n: Cell)
    requires |counts| == Size(d) && InDomain(d, n)
    ensures Index(d, n) in Listed(d, counts, c, 27) <==> Near(c, n) && Takes(d, counts, c, n)
  {
    hide Index, Listed, Visited, Takes;
    if Near(c, n) && Takes(d, counts, c, n) {
      StepIs(c, n.x - c.x, n.y - c.y, n.z - c.z);
      ListedHas(d, counts, c, 27, Step(n.x - c.x, n.y - c.y, n.z - c.z));
    }
    if Index(d, n) in Listed(d, counts, c, 27) {
      var m := ListedBack(d, counts, c, 27, Index(d, n));
      TakesInside(d, counts, c, m);
      IndexInjective(d, m, n);
    }
  }

  lemma TakesInside(d: Dims, counts: seq<nat>, c: Cell, n: Cell)
    requires |counts| == Size(d) && Takes(d, counts, c, n)
    ensures InDomain(d, n)
  {
  }

  /** None is listed twice. */
  lemma {:induction false} ListedOnce(d: Dims, counts: seq<nat>, c: Cell, p: nat, i: nat, j: nat)
    requires |counts| == Size(d) && p <= 27 && i < j < |Listed(d, counts, c, p)|
    ensures Listed(d, counts, c, p)[i] != Listed(d, counts, c, p)[j]
  {
    hide Index;
    var before, last := Listed(d, counts, c, p - 1), Visited(c, p - 1);
    if j < |before| {
      ListedOnce(d, counts, c, p - 1, i, j);
    } else if before[i] == Index(d, last) {
      var m := ListedBack(d, counts, c, p - 1, before[i]);
      IndexInjective(d, m, last);
      SameVisit(c, p - 1);
    }
  }

  lemma SameVisit(c: Cell, p: nat)
    ensures forall q: nat :: q < p < 27 ==> Visited(c, q) != Visited(c, p)
  {
  }

  /** Of two neighbouring cells with particles exactly one lists the other: a pair is visited once. */
  lemma PairOnce(d: Dims, counts: seq<nat>, a: Cell, b: Cell)
    requires |counts| == Size(d) && InDomain(d, a) && InDomain(d, b) && a != b && Near(a, b)
    requires Filled(d, counts, a) && Filled(d, counts, b)
    ensures Index(d, b) in Listed(d, counts, a, 27) <==> Index(d, a) !in Listed(d, counts, b, 27)
  {
    hide Index;
    ListedIff(d, counts, a, b);
    ListedIff(d, counts, b, a);
    if Index(d, a) == Index(d, b) {
      IndexInjective(d, a, b);
    }
  }

  predicate Filled(d: Dims, counts: seq<nat>, c: Cell)
    requires |counts| == Size(d)
  {
    InDomain(d, c) && (IndexBound(d, c); counts[Index(d, c)] != 0)
  }

  /** Thread t changes particles of cell c in the density or the force pass, on behalf of cell o. */
  predicate UpdatesFor(s: Setup, counts: seq<nat>, t: nat, o: Cell, c: Cell)
    requires SetupOk(s) && |counts| == Size(s.d)
  {
    && InDomain(s.d, o) && InDomain(s.d, c) && Owner(s, o) == t && Filled(s.d, counts, o)
    && Index(s.d, c) in [Index(s.d, o)] + Listed(s.d, counts, o, 27)
  }

  ghost predicate Updates(s: Setup, counts: seq<nat>, t: nat, c: Cell)
    requires SetupOk(s) && |counts| == Size(s.d)
  {
    exists o :: UpdatesFor(s, counts, t, o, c)
  }

  /** Thread t can move a particle into cell c: no particle moves further than to a neighbouring cell. */
  ghost predicate Receives(s: Setup, t: nat, c: Cell)
    requires SetupOk(s)
  {
    exists o :: InDomain(s.d, o) && Owner(s, o) == t && Near(o, c)
  }

  lemma UpdatesReceives(s: Setup, counts: seq<nat>, t: nat, c: Cell)
    requires SetupOk(s) && |counts| == Size(s.d) && Updates(s, counts, t, c)
    ensures InDomain(s.d, c) && Receives(s, t, c)
  {
    hide Index, Owner, Takes, Listed;
    var o :| UpdatesFor(s, counts, t, o, c);
    ListedIff(s.d, counts, o, c);
    if Index(s.d, c) == Index(s.d, o) {
      IndexInjective(s.d, c, o);
    }
  }

  /** A cell is marked exactly if a thread other than its owner can reach it. */
  lemma BorderExact(s: Setup, boxes: seq<Box>, c: Cell)
    requires SetupOk(s) && AreBoxes(s, boxes) && InDomain(s.d, c)
    ensures IsBorder(s.d, BoxOf(s, c), c) <==> exists t: nat :: t != Owner(s, c) && Receives(s, t, c)
  {
    hide Owner, BoxAt, Index;
    Boxed(s, boxes, c);
    if IsBorder(s.d, BoxOf(s, c), c) {
      var di, dj, dk :| -1 <= di <= 1 && -1 <= dj <= 1 && -1 <= dk <= 1 && Outside(s.d, BoxOf(s, c), c, di, dj, dk);
      var o := Clamped(s.d, Moved(c, di, dj, dk));
      assert InDomain(s.d, o) && Near(o, c);
      Partition(s, boxes, o, Owner(s, c));
      assert Receives(s, Owner(s, o), c);
    }
    forall t: nat | t != Owner(s, c) && Receives(s, t, c)
      ensures IsBorder(s.d, BoxOf(s, c), c)
    {
      var o :| InDomain(s.d, o) && Owner(s, o) == t && Near(o, c);
      Partition(s, boxes, o, Owner(s, c));
      assert Clamped(s.d, Moved(c, o.x - c.x, o.y - c.y, o.z - c.z)) == o;
      assert Outside(s.d, BoxOf(s, c), c, o.x - c.x, o.y - c.y, o.z - c.z);
    }
  }

  lemma Boxed(s: Setup, boxes: seq<Box>, c: Cell)
    requires SetupOk(s) && AreBoxes(s, boxes) && InDomain(s.d, c)
    ensures Owner(s, c) < |boxes| && boxes[Owner(s, c)] == BoxOf(s, c)
  {
    hide Owner, BoxAt;
    PositiveTiles(s);
    Partition(s, boxes, c, 0);
  }

  lemma PositiveTiles(s: Setup)
    requires SetupOk(s)
    ensures s.xdivs * s.zdivs > 0
  {
  }

  const MUTEXES_PER_CELL: nat := 128

  /** The lock taken around the update of a particle: one of the cell's locks, or none. */
  datatype Guard = Locked(cell: int, number: nat) | Free

  function GuardOf(border: seq<bool>, index: nat, particle: nat): Guard
    requires index < |border|
  {
    if border[index] then Locked(index, particle % MUTEXES_PER_CELL) else Free
  }

  /** With the flags of InitSim, two threads that update the same particle do so under the same lock,
      and a particle that is updated without a lock is updated by the owner of its cell alone. */
  lemma UpdatesAreGuarded(
        s: Setup, boxes: seq<Box>, border: seq<bool>, counts: seq<nat>, c: Cell, particle: nat, t: nat, u: nat)
    requires SetupOk(s) && AreBoxes(s, boxes) && |border| == |counts| == Size(s.d) && FlagsRight(s, border, |boxes|)
    requires Updates(s, counts, t, c) && Updates(s, counts, u, c) && t != u
    ensures InDomain(s.d, c) && 0 <= Index(s.d, c) < |border|
    ensures GuardOf(border, Index(s.d, c), particle) == Locked(Index(s.d, c), particle % MUTEXES_PER_CELL)
  {
    hide Owner, BoxAt, Index, IsBorder, Listed;
    UpdatesReceives(s, counts, t, c);
    UpdatesReceives(s, counts, u, c);
    IndexBound(s.d, c);
    Boxed(s, boxes, c);
    BorderExact(s, boxes, c);
    assert FlagRight(s, border, |boxes|, c);
  }

  lemma UnguardedIsExclusive(
        s: Setup, boxes: seq<Box>, border: seq<bool>, counts: seq<nat>, c: Cell, particle: nat, t: nat)
    requires SetupOk(s) && AreBoxes(s, boxes) && |border| == |counts| == Size(s.d) && FlagsRight(s, border, |boxes|)
    requires Updates(s, counts, t, c) && 0 <= Index(s.d, c) < |border|
    requires GuardOf(border, Index(s.d, c), particle) == Free
    ensures InDomain(s.d, c) && t == Owner(s, c)
  {
    hide Owner, BoxAt, Index, IsBorder, Listed;
    UpdatesReceives(s, counts, t, c);
    Boxed(s, boxes, c);
    BorderExact(s, boxes, c);
    assert FlagRight(s, border, |boxes|, c);
  }

  /** Two threads that append to the same cell in RebuildGrid both take its lock. */
  lemma AppendsAreGuarded(s: Setup, boxes: seq<Box>, border: seq<bool>, c: Cell, t: nat, u: nat)
    requires SetupOk(s) && AreBoxes(s, boxes) && |border| == Size(s.d) && FlagsRight(s, border, |boxes|)
    requires InDomain(s.d, c) && Receives(s, t, c) && Receives(s, u, c) && t != u
    ensures 0 <= Index(s.d, c) < |border| && border[Index(s.d, c)]
  {
    hide Owner, BoxAt, Index, IsBorder, Receives;
    IndexBound(s.d, c);
    Boxed(s, boxes, c);
    BorderExact(s, boxes, c);
    assert FlagRight(s, border, |boxes|, c);
  }
}
