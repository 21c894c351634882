/** The grid of the fluid simulation: how it is cut among the threads, which cells need locks, and
    which pairs of cells are visited. */
module Grid {
  datatype Cell = Cell(x: int, y: int, z: int)

  datatype Dims = Dims(nx: nat, ny: nat, nz: nat)

  /** The block of cells of one thread. */
  datatype Box = Box(sx: int, ex: int, sy: int, ey: int, sz: int, ez: int)

  predicate InDomain(d: Dims, c: Cell) { 0 <= c.x < d.nx && 0 <= c.y < d.ny && 0 <= c.z < d.nz }

  predicate InBox(b: Box, c: Cell) { b.sx <= c.x < b.ex && b.sy <= c.y < b.ey && b.sz <= c.z < b.ez }

  /** Where part i begins if n columns are cut into equal parts and the cuts are rounded. */
  function Cut(n: nat, parts: nat, i: nat): int
    requires parts > 0
  {
    (n as real / parts as real * i as real + 0.5).Floor
  }

  lemma CutEnds(n: nat, parts: nat)
    requires parts > 0
    ensures Cut(n, parts, 0) == 0 && Cut(n, parts, parts) == n
  {
    assert n as real / parts as real * parts as real == n as real;
    assert Cut(n, parts, parts) == (n as real + 0.5).Floor;
  }

  /** The cut is the whole number next to i parts of n, the upper one of two equally near. */
  lemma CutRounds(n: nat, parts: nat, i: nat)
    requires parts > 0
    ensures 2 * parts * Cut(n, parts, i) <= 2 * n * i + parts < 2 * parts * (Cut(n, parts, i) + 1)
  {
    var q, c, d := n as real / parts as real, Cut(n, parts, i), parts as real;
    var x := q * i as real;
    assert q * d == n as real;
    Reordered(q, i as real, d);
    assert x * d == n as real * i as real;
    assert c as real <= x + 0.5 < c as real + 1.0;
    Scaled(x + 0.5, c as real, d);
    Scaled(x + 0.5, c as real + 1.0, d);
    assert (x + 0.5) * d == x * d + 0.5 * d;
    assert (c as real + 1.0) * d == (c + 1) as real * d;
    Whole(c, parts);
    Product(n, i);
    Product(c, parts);
    Product(c + 1, parts);
  }

  lemma Reordered(a: real, b: real, c: real)
    ensures a * b * c == a * c * b
  {
  }

  lemma Product(a: int, b: int)
    ensures (a * b) as real == a as real * b as real
  {
  }

  lemma Whole(c: int, p: int)
    ensures 2 * p * c == 2 * (c * p) && 2 * p * (c + 1) == 2 * ((c + 1) * p)
  {
  }

  /** No part is empty if there are at least as many columns as parts. */
  lemma CutGrows(n: nat, parts: nat, i: nat)
    requires 0 < parts <= n
    ensures Cut(n, parts, i) < Cut(n, parts, i + 1)
  {
    var q := n as real / parts as real;
    Quotient(n as real, parts as real);
    assert q * (i + 1) as real == q * i as real + q;
    Floors(q * i as real + 0.5, q);
  }

  lemma Quotient(a: real, b: real)
    requires a >= b > 0.0
    ensures a / b >= 1.0
  {
    assert a / b * b == a;
    Scaled(a / b, 1.0, b);
  }

  lemma Scaled(a: real, b: real, c: real)
    requires c > 0.0
    ensures a < b ==> a * c < b * c
  {
    if a < b {
      assert (b - a) * c > 0.0;
    }
  }

  lemma Floors(a: real, b: real)
    requires b >= 1.0
    ensures a.Floor < (a + b).Floor
  {
  }

  lemma {:induction false} CutsGrow(n: nat, parts: nat, i: nat, j: nat)
    requires 0 < parts <= n && i <= j
    ensures Cut(n, parts, i) + (j - i) <= Cut(n, parts, j)
    decreases j
  {
    hide Cut;
    if i < j {
      CutsGrow(n, parts, i, j - 1);
      CutGrows(n, parts, j - 1);
    }
  }

  /** The part that column x belongs to. */
  function PartOf(n: nat, parts: nat, x: int, i: nat): (r: nat)
    requires 0 < parts <= n && i < parts && 0 <= x < Cut(n, parts, i + 1)
    ensures r <= i && Cut(n, parts, r) <= x < Cut(n, parts, r + 1)
  {
    CutEnds(n, parts);
    if Cut(n, parts, i) <= x then i else PartOf(n, parts, x, i - 1)
  }

  lemma PartUnique(n: nat, parts: nat, x: int, i: nat, j: nat)
    requires 0 < parts <= n && Cut(n, parts, i) <= x < Cut(n, parts, i + 1)
    requires Cut(n, parts, j) <= x < Cut(n, parts, j + 1)
    ensures i == j
  {
    hide Cut;
    if i < j {
      CutsGrow(n, parts, i + 1, j);
    } else if j < i {
      CutsGrow(n, parts, j + 1, i);
    }
  }

  /** How the program is started: every thread gets at least one column. */
  datatype Setup = Setup(d: Dims, xdivs: nat, zdivs: nat)

  predicate SetupOk(s: Setup) { 0 < s.xdivs <= s.d.nx && 0 < s.zdivs <= s.d.nz && 0 < s.d.ny }

  function BoxAt(s: Setup, i: nat, j: nat): Box
    requires SetupOk(s)
  {
    Box(Cut(s.d.nx, s.xdivs, i), Cut(s.d.nx, s.xdivs, i + 1), 0, s.d.ny, Cut(s.d.nz, s.zdivs, j),
        Cut(s.d.nz, s.zdivs, j + 1))
  }

  /** The boxes of InitSim, column by column. */
  predicate AreBoxes(s: Setup, boxes: seq<Box>)
    requires SetupOk(s)
  {
    && |boxes| == s.xdivs * s.zdivs
    && forall t: nat :: t < |boxes| ==> boxes[t] == BoxAt(s, t / s.zdivs, t % s.zdivs)
  }

  lemma RowMajor(i: nat, j: nat, z: nat)
    requires j < z
    ensures (i * z + j) / z == i && (i * z + j) % z == j
  {
    var q, r := (i * z + j) / z, (i * z + j) % z;
    assert q * z + r == i * z + j;
    assert (q + 1) * z == q * z + z && (i + 1) * z == i * z + z;
    Scale(q + 1, i, z);
    Scale(i + 1, q, z);
  }

  lemma Scale(a: nat, b: nat, c: nat)
    ensures a <= b ==> a * c <= b * c
  {
  }

  predicate BoxPrefix(s: Setup, boxes: seq<Box>)
    requires SetupOk(s)
  {
    forall t: nat :: t < |boxes| ==> boxes[t] == BoxAt(s, t / s.zdivs, t % s.zdivs)
  }

  lemma NextBox(s: Setup, boxes: seq<Box>, i: nat, j: nat)
    requires SetupOk(s) && BoxPrefix(s, boxes) && j < s.zdivs && |boxes| == i * s.zdivs + j
    ensures BoxPrefix(s, boxes + [BoxAt(s, i, j)])
  {
    hide BoxAt;
    RowMajor(i, j, s.zdivs);
  }

  /** The partition in InitSim; the assertions of the program hold. */
  method MakeBoxes(s: Setup) returns (boxes: seq<Box>)
    requires SetupOk(s)
    ensures AreBoxes(s, boxes)
  {
    hide Cut, BoxPrefix;
    CutEnds(s.d.nx, s.xdivs);
    boxes := [];
    var ex := 0;
    NoBox(s);
    for i := 0 to s.xdivs
      invariant |boxes| == i * s.zdivs && ex == Cut(s.d.nx, s.xdivs, i) && BoxPrefix(s, boxes)
    {
      var sx := ex;
      ex := Cut(s.d.nx, s.xdivs, i + 1);
      CutGrows(s.d.nx, s.xdivs, i);
      assert sx < ex;
      boxes := MakeColumn(s, boxes, i, sx, ex);
      assert (i + 1) * s.zdivs == i * s.zdivs + s.zdivs;
    }
    PrefixAll(s, boxes);
  }

  lemma NoBox(s: Setup)
    requires SetupOk(s)
    ensures BoxPrefix(s, [])
  {
  }

  lemma PrefixAll(s: Setup, boxes: seq<Box>)
    requires SetupOk(s) && BoxPrefix(s, boxes) && |boxes| == s.xdivs * s.zdivs
    ensures AreBoxes(s, boxes)
  {
    hide BoxAt;
  }

  /** The inner loop: the boxes between two cuts. */
  method MakeColumn(s: Setup, before: seq<Box>, i: nat, sx: int, ex: int) returns (boxes: seq<Box>)
    requires SetupOk(s) && BoxPrefix(s, before) && |before| == i * s.zdivs
    requires sx == Cut(s.d.nx, s.xdivs, i) && ex == Cut(s.d.nx, s.xdivs, i + 1)
    ensures BoxPrefix(s, boxes) && |boxes| == |before| + s.zdivs
  {
    hide Cut, BoxPrefix;
    CutEnds(s.d.nz, s.zdivs);
    boxes := before;
    var ez := 0;
    for j := 0 to s.zdivs
      invariant |boxes| == |before| + j && ez == Cut(s.d.nz, s.zdivs, j) && BoxPrefix(s, boxes)
    {
      var sz := ez;
      ez := Cut(s.d.nz, s.zdivs, j + 1);
      CutGrows(s.d.nz, s.zdivs, j);
      assert sz < ez;
      NextBox(s, boxes, i, j);
      boxes := boxes + [Box(sx, ex, 0, s.d.ny, sz, ez)];
    }
  }

  lemma RowMajorBound(i: nat, j: nat, m: nat, z: nat)
    requires i < m && j < z
    ensures i * z + j < m * z
  {
    Scale(i + 1, m, z);
    assert (i + 1) * z == i * z + z;
  }

  /** The thread that owns a cell. */
  function Owner(s: Setup, c: Cell): (t: nat)
    requires SetupOk(s) && InDomain(s.d, c)
  {
    CutEnds(s.d.nx, s.xdivs);
    CutEnds(s.d.nz, s.zdivs);
    PartOf(s.d.nx, s.xdivs, c.x, s.xdivs - 1) * s.zdivs + PartOf(s.d.nz, s.zdivs, c.z, s.zdivs - 1)
  }

  lemma PartIff(n: nat, parts: nat, x: int, i: nat)
    requires 0 < parts <= n && i < parts && 0 <= x < n
    ensures x < Cut(n, parts, parts)
    ensures Cut(n, parts, i) <= x < Cut(n, parts, i + 1) <==> i == PartOf(n, parts, x, parts - 1)
  {
    hide Cut, PartOf;
    CutEnds(n, parts);
    if Cut(n, parts, i) <= x < Cut(n, parts, i + 1) {
      PartUnique(n, parts, x, i, PartOf(n, parts, x, parts - 1));
    }
  }

  lemma TileIff(p: nat, q: nat, t: nat, z: nat)
    requires q < z
    ensures t == p * z + q <==> t / z == p && t % z == q
  {
    RowMajor(p, q, z);
    assert t == t / z * z + t % z;
  }

  /** Every cell lies in the box of its owner and in no other; boxes hold nothing but cells. */
  lemma Partition(s: Setup, boxes: seq<Box>, c: Cell, t: nat)
    requires SetupOk(s) && AreBoxes(s, boxes) && t < |boxes|
    ensures InDomain(s.d, c) ==> Owner(s, c) < |boxes| && (InBox(boxes[t], c) <==> t == Owner(s, c))
    ensures InBox(boxes[t], c) ==> InDomain(s.d, c)
  {
    hide Cut, PartOf;
    BoxInside(s, t, |boxes|);
    if InDomain(s.d, c) {
      PartIff(s.d.nx, s.xdivs, c.x, t / s.zdivs);
      PartIff(s.d.nz, s.zdivs, c.z, t % s.zdivs);
      var p, q := PartOf(s.d.nx, s.xdivs, c.x, s.xdivs - 1), PartOf(s.d.nz, s.zdivs, c.z, s.zdivs - 1);
      RowMajorBound(p, q, s.xdivs, s.zdivs);
      TileIff(p, q, t, s.zdivs);
    }
  }

  lemma BoxInside(s: Setup, t: nat, n: nat)
    requires SetupOk(s) && t < n == s.xdivs * s.zdivs
    ensures t / s.zdivs < s.xdivs && t % s.zdivs < s.zdivs && t == t / s.zdivs * s.zdivs + t % s.zdivs
    ensures 0 <= Cut(s.d.nx, s.xdivs, t / s.zdivs) && Cut(s.d.nx, s.xdivs, t / s.zdivs + 1) <= s.d.nx
    ensures 0 <= Cut(s.d.nz, s.zdivs, t % s.zdivs) && Cut(s.d.nz, s.zdivs, t % s.zdivs + 1) <= s.d.nz
  {
    hide Cut;
    var i, j := t / s.zdivs, t % s.zdivs;
    assert t == i * s.zdivs + j;
    Scale(s.xdivs, i, s.zdivs);
    CutEnds(s.d.nx, s.xdivs);
    CutEnds(s.d.nz, s.zdivs);
    CutsGrow(s.d.nx, s.xdivs, 0, i);
    CutsGrow(s.d.nx, s.xdivs, i + 1, s.xdivs);
    CutsGrow(s.d.nz, s.zdivs, 0, j);
    CutsGrow(s.d.nz, s.zdivs, j + 1, s.zdivs);
  }

  function Index(d: Dims, c: Cell): int { (c.z * d.ny + c.y) * d.nx + c.x }

  lemma IndexBound(d: Dims, c: Cell)
    requires InDomain(d, c)
    ensures 0 <= Index(d, c) < d.nx * d.ny * d.nz
  {
    RowMajorBound(c.z, c.y, d.nz, d.ny);
    RowMajorBound(c.z * d.ny + c.y, c.x, d.nz * d.ny, d.nx);
    assert d.nz * d.ny * d.nx == d.nx * d.ny * d.nz;
  }

  lemma IndexInjective(d: Dims, a: Cell, b: Cell)
    requires InDomain(d, a) && InDomain(d, b) && Index(d, a) == Index(d, b)
    ensures a == b
  {
    RowMajor(a.z * d.ny + a.y, a.x, d.nx);
    RowMajor(b.z * d.ny + b.y, b.x, d.nx);
    RowMajor(a.z, a.y, d.ny);
    RowMajor(b.z, b.y, d.ny);
  }

  function Clamp(v: int, n: nat): int { if v < 0 then 0 else if v > n - 1 then n - 1 else v }

  function Clamped(d: Dims, c: Cell): Cell { Cell(Clamp(c.x, d.nx), Clamp(c.y, d.ny), Clamp(c.z, d.nz)) }

  function Moved(c: Cell, di: int, dj: int, dk: int): Cell { Cell(c.x + di, c.y + dj, c.z + dk) }

  predicate Outside(d: Dims, b: Box, c: Cell, di: int, dj: int, dk: int) { !InBox(b, Clamped(d, Moved(c, di, dj, dk))) }

  /** A cell next to a cell of another box. */
  predicate IsBorder(d: Dims, b: Box, c: Cell) {
    exists di, dj, dk :: -1 <= di <= 1 && -1 <= dj <= 1 && -1 <= dk <= 1 && Outside(d, b, c, di, dj, dk)
  }

  /** The three inner loops that mark a cell. */
  method MarkCell(d: Dims, b: Box, c: Cell) returns (border: bool)
    ensures border <==> IsBorder(d, b, c)
  {
    hide Outside;
    border := false;
    var dk := -1;
    while dk <= 1
      invariant -1 <= dk <= 2 && (border ==> IsBorder(d, b, c))
      invariant !border ==> forall i, j, k :: -1 <= i <= 1 && -1 <= j <= 1 && -1 <= k < dk ==>
                !Outside(d, b, c, i, j, k)
    {
      var dj := -1;
      while dj <= 1
        invariant -1 <= dj <= 2 && (border ==> IsBorder(d, b, c))
        invariant !border ==> forall i, j :: -1 <= i <= 1 && -1 <= j < dj ==> !Outside(d, b, c, i, j, dk)
      {
        var di := -1;
        while di <= 1
          invariant -1 <= di <= 2 && (border ==> IsBorder(d, b, c))
          invariant !border ==> forall i :: -1 <= i < di ==> !Outside(d, b, c, i, dj, dk)
        {
          if Outside(d, b, c, di, dj, dk) {
            border := true;
            break;
          }
          di := di + 1;
        }
        if border {
          break;
        }
        dj := dj + 1;
      }
      if border {
        break;
      }
      dk := dk + 1;
    }
  }

  /** A cell of the box in the part of it that the loops have passed. */
  predicate Before(b: Box, c: Cell, x: int, y: int, z: int) {
    InBox(b, c) && (c.z < z || (c.z == z && (c.y < y || (c.y == y && c.x < x))))
  }

  predicate FlagOk(d: Dims, b: Box, flags: seq<bool>, was: seq<bool>, x: int, y: int, z: int, c: Cell)
    requires |flags| == |was| == d.nx * d.ny * d.nz && InDomain(d, c)
  {
    IndexBound(d, c);
    flags[Index(d, c)] == if Before(b, c, x, y, z) then IsBorder(d, b, c) else was[Index(d, c)]
  }

  /** The flags of these cells are right, those of the others as they were. */
  ghost predicate Marked(d: Dims, b: Box, flags: seq<bool>, was: seq<bool>, x: int, y: int, z: int)
    requires |flags| == |was| == d.nx * d.ny * d.nz
  {
    forall c :: InDomain(d, c) ==> FlagOk(d, b, flags, was, x, y, z, c)
  }

  predicate BoxFits(d: Dims, b: Box)
  {
    0 <= b.sx <= b.ex <= d.nx && 0 <= b.sy <= b.ey <= d.ny && 0 <= b.sz <= b.ez <= d.nz
  }

  lemma MarkNone(d: Dims, b: Box, was: seq<bool>)
    requires |was| == d.nx * d.ny * d.nz
    ensures Marked(d, b, was, was, b.sx, b.sy, b.sz)
  {
    hide IsBorder;
  }

  lemma MarkOne(d: Dims, b: Box, flags: seq<bool>, was: seq<bool>, c: Cell)
    requires |flags| == |was| == d.nx * d.ny * d.nz && InBox(b, c) && InDomain(d, c)
    requires Marked(d, b, flags, was, c.x, c.y, c.z)
    ensures 0 <= Index(d, c) < |flags| && Marked(d, b, flags[Index(d, c) := IsBorder(d, b, c)], was, c.x + 1, c.y, c.z)
  {
    hide IsBorder, Index;
    IndexBound(d, c);
    forall e | InDomain(d, e)
      ensures FlagOk(d, b, flags[Index(d, c) := IsBorder(d, b, c)], was, c.x + 1, c.y, c.z, e)
    {
      IndexBound(d, e);
      assert FlagOk(d, b, flags, was, c.x, c.y, c.z, e);
      if Index(d, e) == Index(d, c) {
        IndexInjective(d, e, c);
      }
    }
  }

  /** At the end of a row, and of a plane. */
  lemma MarkRow(d: Dims, b: Box, flags: seq<bool>, was: seq<bool>, x: int, y: int, z: int, x': int, y': int, z': int)
    requires |flags| == |was| == d.nx * d.ny * d.nz && Marked(d, b, flags, was, x, y, z)
    requires (x == b.ex && x' == b.sx && y' == y + 1 && z' == z) || (x == x' && y == b.ey && y' == b.sy && z' == z + 1)
    requires x == x' ==> x == b.sx
    ensures Marked(d, b, flags, was, x', y', z')
  {
    hide IsBorder, Index;
    forall c | InDomain(d, c)
      ensures FlagOk(d, b, flags, was, x', y', z', c)
    {
      IndexBound(d, c);
      assert FlagOk(d, b, flags, was, x, y, z, c);
    }
  }

  /** The loops of InitSim over the cells of a box. */
  method MarkBox(d: Dims, b: Box, border: array<bool>)
    requires border.Length == d.nx * d.ny * d.nz && BoxFits(d, b)
    modifies border
    ensures Marked(d, b, border[..], old(border[..]), b.sx, b.sy, b.ez)
  {
    hide Marked, IsBorder, Index;
    ghost var was := border[..];
    MarkNone(d, b, was);
    for z := b.sz to b.ez
      invariant Marked(d, b, border[..], was, b.sx, b.sy, z)
    {
      for y := b.sy to b.ey
        invariant Marked(d, b, border[..], was, b.sx, y, z)
      {
        for x := b.sx to b.ex
          invariant Marked(d, b, border[..], was, x, y, z)
        {
          var c := Cell(x, y, z);
          MarkOne(d, b, border[..], was, c);
          var flag := MarkCell(d, b, c);
          ghost var flags := border[..];
          border[Index(d, c)] := flag;
          assert border[..] == flags[Index(d, c) := flag];
        }
        MarkRow(d, b, border[..], was, b.ex, y, z, b.sx, y + 1, z);
      }
      MarkRow(d, b, border[..], was, b.sx, b.ey, z, b.sx, b.sy, z + 1);
    }
  }

  /** The flag of a cell whose owner has been dealt with. */
  predicate FlagRight(s: Setup, flags: seq<bool>, n: nat, c: Cell)
    requires SetupOk(s) && |flags| == s.d.nx * s.d.ny * s.d.nz && InDomain(s.d, c)
  {
    IndexBound(s.d, c);
    Owner(s, c) < n ==> flags[Index(s.d, c)] == IsBorder(s.d, BoxOf(s, c), c)
  }

  function BoxOf(s: Setup, c: Cell): Box
    requires SetupOk(s) && InDomain(s.d, c)
  {
    BoxAt(s, Owner(s, c) / s.zdivs, Owner(s, c) % s.zdivs)
  }

  ghost predicate FlagsRight(s: Setup, flags: seq<bool>, n: nat)
    requires SetupOk(s) && |flags| == s.d.nx * s.d.ny * s.d.nz
  {
    forall c :: InDomain(s.d, c) ==> FlagRight(s, flags, n, c)
  }

  lemma FlagsStep(s: Setup, boxes: seq<Box>, n: nat, flags: seq<bool>, was: seq<bool>)
    requires SetupOk(s) && AreBoxes(s, boxes) && n < |boxes| && |flags| == |was| == s.d.nx * s.d.ny * s.d.nz
    requires FlagsRight(s, was, n) && Marked(s.d, boxes[n], flags, was, boxes[n].sx, boxes[n].sy, boxes[n].ez)
    ensures FlagsRight(s, flags, n + 1)
  {
    hide IsBorder, Index, Owner, BoxAt;
    forall c | InDomain(s.d, c)
      ensures FlagRight(s, flags, n + 1, c)
    {
      IndexBound(s.d, c);
      Partition(s, boxes, c, n);
      assert FlagRight(s, was, n, c);
      assert FlagOk(s.d, boxes[n], flags, was, boxes[n].sx, boxes[n].sy, boxes[n].ez, c);
    }
  }

  /** InitSim: after it a flag says exactly whether its cell is next to a cell of another thread. */
  method MarkBorders(s: Setup, boxes: seq<Box>) returns (border: array<bool>)
    requires SetupOk(s) && AreBoxes(s, boxes)
    ensures border.Length == s.d.nx * s.d.ny * s.d.nz && FlagsRight(s, border[..], |boxes|)
  {
    hide FlagsRight, Marked, BoxAt;
    border := new bool[s.d.nx * s.d.ny * s.d.nz];
    NoneRight(s, border[..]);
    for i := 0 to |boxes|
      invariant FlagsRight(s, border[..], i)
    {
      ghost var was := border[..];
      Fits(s, boxes, i);
      MarkBox(s.d, boxes[i], border);
      FlagsStep(s, boxes, i, border[..], was);
    }
  }

  lemma NoneRight(s: Setup, flags: seq<bool>)
    requires SetupOk(s) && |flags| == s.d.nx * s.d.ny * s.d.nz
    ensures FlagsRight(s, flags, 0)
  {
  }

  lemma Fits(s: Setup, boxes: seq<Box>, t: nat)
    requires SetupOk(s) && AreBoxes(s, boxes) && t < |boxes|
    ensures BoxFits(s.d, boxes[t])
  {
    hide Cut;
    BoxInside(s, t, |boxes|);
    CutGrows(s.d.nx, s.xdivs, t / s.zdivs);
    CutGrows(s.d.nz, s.zdivs, t % s.zdivs);
  }
}
