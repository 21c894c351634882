/** Building a conditional tree: transactions go below the hot node of their mask, and the hot nodes
    are linked to their parents at the end. */
module FpGrow {
  import opened FpForest
  import opened FpMasks

  /** A tree under construction over n items of which h are hot. kids[k] is what hangs below the hot
      node of mask k, hot[k] the weight that ends or passes there so far, present[k] whether the node
      exists. Mask 0 is the root. */
  datatype Growing = Growing(kids: seq<Forest>, hot: seq<nat>, present: seq<bool>, nodenum: seq<nat>, data: nat)

  predicate Shaped(g: Growing, h: nat, n: nat) {
    && |g.kids| == Pow2(h) && |g.hot| == Pow2(h) && |g.present| == Pow2(h) && |g.nodenum| == n && h <= n
  }

  /** The weight a list of branches gives to item m together with the items y below it. */
  function PathsSup(ps: seq<Trans>, m: nat, y: set<nat>): nat {
    if ps == [] then 0
    else PathsSup(ps[..|ps| - 1], m, y) + PathSup(ps[|ps| - 1].items, ps[|ps| - 1].weight, {}, m, y)
  }

  /** What mask k contributes: the nodes below it, and those the weight kept at k still has to become. */
  ghost function SupOf(g: Growing, m: nat, y: set<nat>): nat -> int {
    (k: nat) => if k < |g.kids| && k < |g.hot|
                then TreeSup(g.kids[k], ToSet(Bits(k)), m, y) + PathSup(Bits(k), g.hot[k], {}, m, y) else 0
  }

  /** The leaf depths below mask k, not counting the way down to k for one of the leaves. */
  ghost function LeavesOf(g: Growing): nat -> int {
    (k: nat) => if k < |g.kids| then LeafSumBelow(g.kids[k], |Bits(k)|) - |Bits(k)| else 0
  }

  ghost function NodesOf(g: Growing, x: nat): nat -> int {
    (k: nat) => if k < |g.kids| then NodeCount(g.kids[k], x) else 0
  }

  function Low(k: nat): nat { if k == 0 then 0 else High(k) + 1 }

  /** The masks below i are not linked yet; hot items among their children belong to linked ones. */
  ghost predicate KidsOk(g: Growing, h: nat, n: nat, i: nat)
    requires Shaped(g, h, n)
  {
    forall k :: 0 <= k < i && k < Pow2(h) ==> KidOk(g, h, n, i, k)
  }

  ghost predicate KidOk(g: Growing, h: nat, n: nat, i: nat, k: nat)
    requires Shaped(g, h, n) && k < Pow2(h)
  {
    && Trie(g.kids[k], Low(k), n)
    && (forall s: nat :: s < h && HasItem(g.kids[k], s) ==> k + Pow2(s) >= i)
    && (!g.present[k] ==> g.kids[k] == Nil && g.hot[k] == 0)
    && (g.present[k] && k > 0 ==> g.hot[k] > 0)
  }

  ghost predicate SupOk(g: Growing, i: nat, ps: seq<Trans>, m: nat, y: set<nat>) {
    SumTo(SupOf(g, m, y), i) == PathsSup(ps, m, y)
  }

  /** The unlinked masks below i carry all the branches ps, and the counters fit. */
  ghost predicate Grows(g: Growing, h: nat, n: nat, i: nat, ps: seq<Trans>) {
    && Shaped(g, h, n) && i <= Pow2(h) && KidsOk(g, h, n, i)
    && (forall m, y {:trigger SupOk(g, i, ps, m, y)} :: SupOk(g, i, ps, m, y))
    && SumTo(LeavesOf(g), i) == g.data
    && forall x :: 0 <= x < n ==> SumTo(NodesOf(g, x), i) == g.nodenum[x]
  }

  function Empty(h: nat, n: nat): Growing {
    Growing(seq(Pow2(h), _ => Nil), seq(Pow2(h), _ => 0), seq(Pow2(h), (k: nat) => k == 0), seq(n, _ => 0), 0)
  }

  lemma {:induction false} NoWeight(p: seq<nat>, anc: set<nat>, m: nat, y: set<nat>)
    ensures PathSup(p, 0, anc, m, y) == 0
  {
    if p != [] {
      NoWeight(p[1..], anc + {p[0]}, m, y);
    }
  }

  lemma EmptyGrows(h: nat, n: nat)
    requires h <= n
    ensures Grows(Empty(h, n), h, n, Pow2(h), [])
  {
    var g := Empty(h, n);
    forall m, y
      ensures SupOk(g, Pow2(h), [], m, y)
    {
      forall k: nat | k < Pow2(h)
        ensures SupOf(g, m, y)(k) == 0
      {
        NoWeight(Bits(k), {}, m, y);
      }
      SumZero(SupOf(g, m, y), Pow2(h));
    }
    SumZero(LeavesOf(g), Pow2(h));
    forall x | 0 <= x < n
      ensures SumTo(NodesOf(g, x), Pow2(h)) == 0
    {
      SumZero(NodesOf(g, x), Pow2(h));
    }
    forall k | 0 <= k < Pow2(h)
      ensures KidOk(g, h, n, Pow2(h), k)
    {
    }
  }

  /** One transaction of scan2: its hot items are the bits of the mask, its other items follow. */
  function AddTrans(g: Growing, mask: nat, cold: seq<nat>, w: nat): Growing
    requires mask < |g.kids| && mask < |g.hot| && mask < |g.present|
  {
    var f := g.kids[mask];
    var added := AddedNodes(f, cold);
    Growing(g.kids[mask := Insert(f, cold, w)], g.hot[mask := g.hot[mask] + w], g.present[mask := true],
            seq(|g.nodenum|, (x: nat) requires x < |g.nodenum| => g.nodenum[x] + Occurs(added, x)),
            g.data + AddedData(f, cold, |cold| + |Bits(mask)|))
  }

  lemma {:induction false} PathSupConcat(p: seq<nat>, q: seq<nat>, w: nat, anc: set<nat>, m: nat, y: set<nat>)
    ensures PathSup(p + q, w, anc, m, y) == PathSup(p, w, anc, m, y) + PathSup(q, w, anc + ToSet(p), m, y)
  {
    if p == [] {
      assert p + q == q && anc + ToSet(p) == anc;
    } else {
      assert (p + q)[1..] == p[1..] + q && p == [p[0]] + p[1..];
      ToSetAppend([p[0]], p[1..]);
      assert anc + ToSet(p) == anc + {p[0]} + ToSet(p[1..]);
      PathSupConcat(p[1..], q, w, anc + {p[0]}, m, y);
    }
  }

  lemma EmptyUnion(s: set<nat>)
    ensures {} + s == s
  {
  }

  lemma AddTransSup(g: Growing, h: nat, n: nat, ps: seq<Trans>, mask: nat, cold: seq<nat>, w: nat, m: nat, y: set<nat>)
    requires Shaped(g, h, n) && mask < Pow2(h) && SupOk(g, Pow2(h), ps, m, y)
    ensures SupOk(AddTrans(g, mask, cold, w), Pow2(h), ps + [Trans(Bits(mask) + cold, w)], m, y)
  {
    hide TreeSup, PathSup, Insert, Bits, AddedData, AddedNodes, NodeCount, LeafSum, LeafSumBelow, Occurs, Pow2, ToSet;
    var g', t := AddTrans(g, mask, cold, w), Trans(Bits(mask) + cold, w);
    assert (ps + [t])[..|ps|] == ps;
    SumChange(SupOf(g, m, y), SupOf(g', m, y), Pow2(h), mask);
    InsertSup(g.kids[mask], cold, w, ToSet(Bits(mask)), m, y);
    PathSupSum(Bits(mask), g.hot[mask], w, {}, m, y);
    PathSupConcat(Bits(mask), cold, w, {}, m, y);
    EmptyUnion(ToSet(Bits(mask)));
  }

  lemma AddTransLeaves(g: Growing, h: nat, n: nat, mask: nat, cold: seq<nat>, w: nat)
    requires Shaped(g, h, n) && mask < Pow2(h) && SumTo(LeavesOf(g), Pow2(h)) == g.data
    ensures var g' := AddTrans(g, mask, cold, w); SumTo(LeavesOf(g'), Pow2(h)) == g'.data
  {
    hide TreeSup, PathSup, Insert, Bits, AddedData, AddedNodes, NodeCount, LeafSum, LeafSumBelow, Occurs, Pow2, ToSet;
    var g' := AddTrans(g, mask, cold, w);
    SumChange(LeavesOf(g), LeavesOf(g'), Pow2(h), mask);
    InsertLeaves(g.kids[mask], cold, w, |Bits(mask)|);
  }

  lemma AddTransNodes(g: Growing, h: nat, n: nat, mask: nat, cold: seq<nat>, w: nat, x: nat)
    requires Shaped(g, h, n) && mask < Pow2(h) && x < n && SumTo(NodesOf(g, x), Pow2(h)) == g.nodenum[x]
    ensures var g' := AddTrans(g, mask, cold, w); SumTo(NodesOf(g', x), Pow2(h)) == g'.nodenum[x]
  {
    hide TreeSup, PathSup, Insert, Bits, AddedData, AddedNodes, NodeCount, LeafSum, LeafSumBelow, Occurs, Pow2, ToSet;
    var g' := AddTrans(g, mask, cold, w);
    SumChange(NodesOf(g, x), NodesOf(g', x), Pow2(h), mask);
    InsertNodes(g.kids[mask], cold, w, x);
  }

  lemma AddTransGrows(g: Growing, h: nat, n: nat, ps: seq<Trans>, mask: nat, cold: seq<nat>, w: nat)
    requires Grows(g, h, n, Pow2(h), ps) && mask < Pow2(h) && w > 0
    requires Ascending(cold) && forall j :: 0 <= j < |cold| ==> h <= cold[j] < n
    ensures Grows(AddTrans(g, mask, cold, w), h, n, Pow2(h), ps + [Trans(Bits(mask) + cold, w)])
  {
    var g' := AddTrans(g, mask, cold, w);
    forall m, y
      ensures SupOk(g', Pow2(h), ps + [Trans(Bits(mask) + cold, w)], m, y)
    {
      assert SupOk(g, Pow2(h), ps, m, y);
      AddTransSup(g, h, n, ps, mask, cold, w, m, y);
    }
    AddTransLeaves(g, h, n, mask, cold, w);
    forall x | 0 <= x < n
      ensures SumTo(NodesOf(g', x), Pow2(h)) == g'.nodenum[x]
    {
      AddTransNodes(g, h, n, mask, cold, w, x);
    }
    forall k | 0 <= k < Pow2(h)
      ensures KidOk(g', h, n, Pow2(h), k)
    {
      assert KidOk(g, h, n, Pow2(h), k);
      if k == mask {
        LowBelow(k, h);
        InsertTrie(g.kids[k], cold, w, Low(k), n);
      }
    }
  }

  lemma LowBelow(k: nat, h: nat)
    requires k < Pow2(h)
    ensures Low(k) <= h
  {
    if k > 0 && High(k) >= h {
      Pow2Monotone(h, High(k));
    }
  }

  /** One turn of the linking loop: the hot node of mask i becomes the first child of its parent. */
  function Link(g: Growing, i: nat): Growing
    requires 0 < i < |g.kids| && |g.hot| == |g.kids| && |g.present| == |g.kids| && High(i) < |g.nodenum|
  {
    if !g.present[i] then g
    else
      var q, s := Parent(i), High(i);
      Growing(g.kids[q := Node(s, g.hot[i], g.kids[i], g.kids[q])],
              g.hot[q := g.hot[q] + g.hot[i]][i := 0], g.present[q := true][i := false],
              g.nodenum[s := g.nodenum[s] + 1],
              g.data + (if g.kids[q] == Nil then 1 else |Bits(i)|))
  }

  lemma HighHot(i: nat, h: nat)
    requires 0 < i < Pow2(h)
    ensures High(i) < h && Parent(i) + Pow2(High(i)) == i
  {
    LowBelow(i, h);
  }

  lemma NodeSup(s: nat, c: nat, ch: Forest, sb: Forest, anc: set<nat>, m: nat, y: set<nat>)
    ensures TreeSup(Node(s, c, ch, sb), anc, m, y) ==
            (if s == m && y <= anc then c else 0) + TreeSup(ch, anc + {s}, m, y) + TreeSup(sb, anc, m, y)
  {
  }

  lemma BitsStep(i: nat)
    requires i > 0
    ensures Bits(i) == Bits(Parent(i)) + [High(i)] && |Bits(i)| == |Bits(Parent(i))| + 1
    ensures ToSet(Bits(i)) == ToSet(Bits(Parent(i))) + {High(i)}
  {
    ToSetAppend(Bits(Parent(i)), [High(i)]);
    assert ToSet([High(i)]) == {High(i)};
  }

  lemma LinkSup(g: Growing, h: nat, n: nat, ps: seq<Trans>, i: nat, m: nat, y: set<nat>)
    requires Shaped(g, h, n) && 0 < i < Pow2(h) && High(i) < n && SupOk(g, i + 1, ps, m, y)
    requires !g.present[i] ==> g.kids[i] == Nil && g.hot[i] == 0
    ensures SupOk(Link(g, i), i, ps, m, y)
  {
    hide TreeSup, PathSup, Bits, NodeCount, LeafSum, LeafSumBelow, Pow2, ToSet, High, PathsSup;
    var g', q, s := Link(g, i), Parent(i), High(i);
    if !g.present[i] {
      NoWeight(Bits(i), {}, m, y);
      NilSup(ToSet(Bits(i)), m, y);
    } else {
      SumChange(SupOf(g, m, y), SupOf(g', m, y), i, q);
      PathSupSum(Bits(q), g.hot[q], g.hot[i], {}, m, y);
      PathSupAppend(Bits(q), s, g.hot[i], {}, m, y);
      BitsStep(i);
      NodeSup(s, g.hot[i], g.kids[i], g.kids[q], ToSet(Bits(q)), m, y);
      EmptyUnion(ToSet(Bits(q)));
    }
  }

  lemma NilSup(anc: set<nat>, m: nat, y: set<nat>)
    ensures TreeSup(Nil, anc, m, y) == 0
  {
  }

  lemma NodeLeaves(s: nat, c: nat, ch: Forest, sb: Forest, d: nat)
    ensures LeafSumBelow(Node(s, c, ch, sb), d) == LeafSumBelow(ch, d + 1) +
            (if sb == Nil then 0 else LeafSumBelow(sb, d))
    ensures LeafSumBelow(Nil, d) == d
  {
    assert LeafSum(Node(s, c, ch, sb), d) == LeafSumBelow(ch, d + 1) + LeafSum(sb, d);
  }

  lemma LinkLeaves(g: Growing, h: nat, n: nat, i: nat)
    requires Shaped(g, h, n) && 0 < i < Pow2(h) && High(i) < n && SumTo(LeavesOf(g), i + 1) == g.data
    requires !g.present[i] ==> g.kids[i] == Nil
    ensures var g' := Link(g, i); SumTo(LeavesOf(g'), i) == g'.data
  {
    hide Bits, NodeCount, LeafSum, LeafSumBelow, Pow2, High;
    var g', q, s := Link(g, i), Parent(i), High(i);
    NodeLeaves(s, g.hot[i], g.kids[i], g.kids[q], |Bits(q)|);
    if !g.present[i] {
      NodeLeaves(s, 0, Nil, Nil, |Bits(i)|);
    } else {
      SumChange(LeavesOf(g), LeavesOf(g'), i, q);
      BitsStep(i);
    }
  }

  lemma LinkNodes(g: Growing, h: nat, n: nat, i: nat, x: nat)
    requires Shaped(g, h, n) && 0 < i < Pow2(h) && High(i) < n && x < n && SumTo(NodesOf(g, x), i + 1) == g.nodenum[x]
    requires !g.present[i] ==> g.kids[i] == Nil
    ensures var g' := Link(g, i); SumTo(NodesOf(g', x), i) == g'.nodenum[x]
  {
    hide Bits, Pow2, High;
    var g', q := Link(g, i), Parent(i);
    if g.present[i] {
      SumChange(NodesOf(g, x), NodesOf(g', x), i, q);
    }
  }

  lemma LinkKid(g: Growing, h: nat, n: nat, i: nat, k: nat)
    requires Shaped(g, h, n) && 0 < i < Pow2(h) && High(i) < h && Parent(i) + Pow2(High(i)) == i && k < i
    requires KidOk(g, h, n, i + 1, i) && KidOk(g, h, n, i + 1, k)
    ensures KidOk(Link(g, i), h, n, i, k)
  {
    hide Bits, Pow2, High;
    LowParent(i);
  }

  lemma LowParent(i: nat)
    requires i > 0
    ensures Low(Parent(i)) <= High(i) && Low(i) == High(i) + 1
  {
    LowBelow(Parent(i), High(i));
  }

  lemma LinkGrows(g: Growing, h: nat, n: nat, ps: seq<Trans>, i: nat)
    requires Grows(g, h, n, i + 1, ps) && 0 < i < Pow2(h)
    ensures High(i) < n && Grows(Link(g, i), h, n, i, ps)
  {
    hide Bits, Pow2, High, LeavesOf, NodesOf, SumTo, SupOk, Link, KidOk;
    HighHot(i, h);
    assert KidOk(g, h, n, i + 1, i);
    PresentOnly(g, h, n, i);
    var g' := Link(g, i);
    LinkShaped(g, h, n, i);
    forall m, y
      ensures SupOk(g', i, ps, m, y)
    {
      assert SupOk(g, i + 1, ps, m, y);
      LinkSup(g, h, n, ps, i, m, y);
    }
    LinkLeaves(g, h, n, i);
    forall x | 0 <= x < n
      ensures SumTo(NodesOf(g', x), i) == g'.nodenum[x]
    {
      LinkNodes(g, h, n, i, x);
    }
    forall k | 0 <= k < i && k < Pow2(h)
      ensures KidOk(g', h, n, i, k)
    {
      assert KidOk(g, h, n, i + 1, k);
      LinkKid(g, h, n, i, k);
    }
  }

  lemma PresentOnly(g: Growing, h: nat, n: nat, i: nat)
    requires Shaped(g, h, n) && i < Pow2(h) && KidOk(g, h, n, i + 1, i)
    ensures !g.present[i] ==> g.kids[i] == Nil && g.hot[i] == 0
  {
  }

  lemma LinkShaped(g: Growing, h: nat, n: nat, i: nat)
    requires Shaped(g, h, n) && 0 < i < Pow2(h) && High(i) < n
    ensures Shaped(Link(g, i), h, n)
  {
  }

  /** In the end the root carries all the branches. */
  lemma Grown(g: Growing, h: nat, n: nat, ps: seq<Trans>)
    requires Grows(g, h, n, 1, ps)
    ensures Trie(g.kids[0], 0, n) && g.data == LeafSum(g.kids[0], 0)
    ensures forall x :: 0 <= x < n ==> g.nodenum[x] == NodeCount(g.kids[0], x)
    ensures forall m, y {:trigger PathsSup(ps, m, y)} :: TreeSup(g.kids[0], {}, m, y) == PathsSup(ps, m, y)
  {
    assert KidOk(g, h, n, 1, 0);
    assert Bits(0) == [] && ToSet([]) == {};
    assert SumTo(LeavesOf(g), 0) == 0;
    forall m, y
      ensures TreeSup(g.kids[0], {}, m, y) == PathsSup(ps, m, y)
    {
      assert SupOk(g, 1, ps, m, y);
      assert SumTo(SupOf(g, m, y), 0) == 0;
    }
    forall x | 0 <= x < n
      ensures g.nodenum[x] == NodeCount(g.kids[0], x)
    {
      assert SumTo(NodesOf(g, x), 1) == SumTo(NodesOf(g, x), 0) + NodesOf(g, x)(0);
    }
  }
}
