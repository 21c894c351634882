/** The tree that scan2 builds is the one that plain insertion of the branches builds, up to the order
    of siblings: every path leads to a node with the same count. */
module FpSame {
  import opened FpForest
  import opened FpMasks
  import opened FpGrow

  /** The count of the node at the end of a path, 0 if there is none. */
  function CountAt(f: Forest, q: seq<nat>): nat
    decreases |q|, f
  {
    if q == [] || f == Nil then 0
    else if f.item == q[0] then (if |q| == 1 then f.count else CountAt(f.child, q[1..]))
    else CountAt(f.sib, q)
  }

  /** The same for a single branch of weight w. */
  function PathAt(p: seq<nat>, w: nat, q: seq<nat>): nat { if q != [] && q <= p then w else 0 }

  function PathsAt(ps: seq<Trans>, q: seq<nat>): nat {
    if ps == [] then 0 else PathsAt(ps[..|ps| - 1], q) + PathAt(ps[|ps| - 1].items, ps[|ps| - 1].weight, q)
  }

  /** Insertion of one branch after another. */
  function InsertAll(ps: seq<Trans>): Forest {
    if ps == [] then Nil else Insert(InsertAll(ps[..|ps| - 1]), ps[|ps| - 1].items, ps[|ps| - 1].weight)
  }

  lemma {:induction false} NotThere(f: Forest, q: seq<nat>)
    requires q != [] && !HasItem(f, q[0])
    ensures CountAt(f, q) == 0
    decreases f
  {
    if f != Nil {
      NotThere(f.sib, q);
    }
  }

  lemma {:induction false} ChainAt(p: seq<nat>, w: nat, q: seq<nat>)
    ensures CountAt(Chain(p, w), q) == PathAt(p, w, q)
  {
    if p != [] && q != [] {
      assert q == [q[0]] + q[1..] && p == [p[0]] + p[1..];
      if q[0] == p[0] && |q| > 1 {
        ChainAt(p[1..], w, q[1..]);
      }
    }
  }

  lemma {:induction false} InsertAt(f: Forest, p: seq<nat>, w: nat, q: seq<nat>)
    ensures CountAt(Insert(f, p, w), q) == CountAt(f, q) + PathAt(p, w, q)
    decreases |p|, f
  {
    if p != [] && q != [] {
      if HasItem(f, p[0]) {
        DescendAt(f, p, w, q);
      } else {
        ChainAt(p, w, q);
        if q[0] == p[0] {
          NotThere(f, q);
        }
      }
    }
  }

  lemma {:induction false} DescendAt(f: Forest, p: seq<nat>, w: nat, q: seq<nat>)
    requires p != [] && q != [] && HasItem(f, p[0])
    ensures CountAt(Descend(f, p, w), q) == CountAt(f, q) + PathAt(p, w, q)
    decreases |p|, f, 0
  {
    assert q == [q[0]] + q[1..] && p == [p[0]] + p[1..];
    if f.item == p[0] {
      InsertAt(f.child, p[1..], w, q[1..]);
    } else {
      DescendAt(f.sib, p, w, q);
    }
  }

  lemma {:induction false} InsertAllAt(ps: seq<Trans>, q: seq<nat>)
    ensures CountAt(InsertAll(ps), q) == PathsAt(ps, q)
  {
    if ps != [] {
      var n := |ps| - 1;
      InsertAllAt(ps[..n], q);
      InsertAt(InsertAll(ps[..n]), ps[n].items, ps[n].weight, q);
    }
  }

  /** What mask k contributes to the count at q. */
  function MaskAt(b: seq<nat>, f: Forest, w: nat, q: seq<nat>): nat {
    (if b <= q then CountAt(f, q[|b|..]) else 0) + PathAt(b, w, q)
  }

  ghost function CountOf(g: Growing, q: seq<nat>): nat -> int {
    (k: nat) => if k < |g.kids| && k < |g.hot| then MaskAt(Bits(k), g.kids[k], g.hot[k], q) else 0
  }

  ghost predicate CountOk(g: Growing, i: nat, ps: seq<Trans>, q: seq<nat>) {
    SumTo(CountOf(g, q), i) == PathsAt(ps, q)
  }

  ghost predicate Counts(g: Growing, i: nat, ps: seq<Trans>) {
    forall q :: CountOk(g, i, ps, q)
  }

  lemma EmptyCounts(h: nat, n: nat)
    ensures Counts(Empty(h, n), Pow2(h), [])
  {
    forall q
      ensures CountOk(Empty(h, n), Pow2(h), [], q)
    {
      SumZero(CountOf(Empty(h, n), q), Pow2(h));
    }
  }

  lemma MaskInsert(b: seq<nat>, f: Forest, w0: nat, cold: seq<nat>, w: nat, q: seq<nat>)
    ensures MaskAt(b, Insert(f, cold, w), w0 + w, q) == MaskAt(b, f, w0, q) + PathAt(b + cold, w, q)
  {
    if b <= q {
      InsertAt(f, cold, w, q[|b|..]);
      assert q == b + q[|b|..];
      assert q <= b + cold <==> q[|b|..] <= cold;
    } else {
      assert q <= b + cold <==> q <= b;
    }
  }

  lemma AddTransCount(g: Growing, h: nat, n: nat, ps: seq<Trans>, mask: nat, cold: seq<nat>, w: nat)
    requires Shaped(g, h, n) && mask < Pow2(h) && Counts(g, Pow2(h), ps)
    ensures Counts(AddTrans(g, mask, cold, w), Pow2(h), ps + [Trans(Bits(mask) + cold, w)])
  {
    hide Bits, Pow2, Insert, MaskAt, AddedData, AddedNodes, Occurs;
    var g', t := AddTrans(g, mask, cold, w), Trans(Bits(mask) + cold, w);
    assert (ps + [t])[..|ps|] == ps;
    forall q
      ensures CountOk(g', Pow2(h), ps + [t], q)
    {
      assert CountOk(g, Pow2(h), ps, q);
      SumChange(CountOf(g, q), CountOf(g', q), Pow2(h), mask);
      MaskInsert(Bits(mask), g.kids[mask], g.hot[mask], cold, w, q);
    }
  }

  /** A hot node, its children and the weight that passes it move below its parent. */
  lemma MaskLink(b: seq<nat>, s: nat, f: Forest, w: nat, ch: Forest, v: nat, q: seq<nat>)
    requires !HasItem(f, s)
    ensures MaskAt(b, Node(s, v, ch, f), w + v, q) == MaskAt(b, f, w, q) + MaskAt(b + [s], ch, v, q)
  {
    if b <= q {
      var r := q[|b|..];
      assert q == b + r;
      if r == [] {
        assert !(b + [s] <= q);
      } else if r[0] == s {
        assert r == [s] + r[1..] && b + [s] <= q && q[|b + [s]|..] == r[1..];
        NotThere(f, r);
        assert q <= b + [s] <==> r[1..] == [];
      } else {
        assert !(b + [s] <= q) && !(q <= b + [s]) by {
          assert q[|b|] == r[0] && (b + [s])[|b|] == s;
        }
      }
    } else {
      PrefixAppend(b, s, q);
    }
  }

  lemma PrefixAppend(b: seq<nat>, s: nat, q: seq<nat>)
    ensures b + [s] <= q ==> b <= q
    ensures q <= b + [s] ==> q <= b || q == b + [s]
  {
    if b + [s] <= q {
      assert b == (b + [s])[..|b|] == q[..|b|];
    }
    if q <= b + [s] {
      assert q == (b + [s])[..|q|];
    }
  }

  lemma LinkCount(g: Growing, h: nat, n: nat, ps: seq<Trans>, i: nat)
    requires Shaped(g, h, n) && 0 < i < Pow2(h) && High(i) < n && Counts(g, i + 1, ps)
    requires !g.present[i] ==> g.kids[i] == Nil && g.hot[i] == 0
    requires !HasItem(g.kids[Parent(i)], High(i))
    ensures Counts(Link(g, i), i, ps)
  {
    hide Bits, Pow2, High, MaskAt, HasItem, PathsAt;
    var g', p, s := Link(g, i), Parent(i), High(i);
    BitsStep(i);
    forall q
      ensures CountOk(g', i, ps, q)
    {
      assert CountOk(g, i + 1, ps, q);
      if g.present[i] {
        SumChange(CountOf(g, q), CountOf(g', q), i, p);
        MaskLink(Bits(p), s, g.kids[p], g.hot[p], g.kids[i], g.hot[i], q);
      } else {
        MaskNone(Bits(i), q);
      }
    }
  }

  lemma MaskNone(b: seq<nat>, q: seq<nat>)
    ensures MaskAt(b, Nil, 0, q) == 0
  {
  }

  lemma NoSibling(g: Growing, h: nat, n: nat, i: nat)
    requires Shaped(g, h, n) && 0 < i < Pow2(h) && KidsOk(g, h, n, i + 1)
    ensures High(i) < n && !HasItem(g.kids[Parent(i)], High(i))
    ensures !g.present[i] ==> g.kids[i] == Nil && g.hot[i] == 0
  {
    HighHot(i, h);
    assert KidOk(g, h, n, i + 1, i) && KidOk(g, h, n, i + 1, Parent(i));
  }

  /** Two trees are the same up to the order of siblings. */
  ghost predicate SameTree(f: Forest, f': Forest) {
    forall q :: CountAt(f, q) == CountAt(f', q)
  }

  lemma RootCounts(g: Growing, ps: seq<Trans>)
    requires |g.kids| > 0 && |g.hot| > 0 && Counts(g, 1, ps)
    ensures SameTree(g.kids[0], InsertAll(ps))
  {
    forall q
      ensures CountAt(g.kids[0], q) == CountAt(InsertAll(ps), q)
    {
      assert CountOk(g, 1, ps, q);
      assert SumTo(CountOf(g, q), 1) == SumTo(CountOf(g, q), 0) + CountOf(g, q)(0);
      assert Bits(0) == [] && q[0..] == q;
      InsertAllAt(ps, q);
    }
  }
}
