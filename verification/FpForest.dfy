/** FP-trees as first-child/next-sibling forests, and the weight they give to item sets. */
module FpForest {

  /** A node with its first child and its right sibling. */
  datatype Forest = Nil | Node(item: nat, count: nat, child: Forest, sib: Forest)

  /** A weighted transaction; in a database over a tree its items ascend. */
  datatype Trans = Trans(items: seq<nat>, weight: nat)

  function ToSet(s: seq<nat>): (r: set<nat>)
    ensures forall x :: x in r <==> x in s
  {
    set x | x in s
  }

  lemma ToSetAppend(a: seq<nat>, b: seq<nat>)
    ensures ToSet(a + b) == ToSet(a) + ToSet(b)
  {
  }

  predicate Ascending(s: seq<nat>) {
    forall i, j :: 0 <= i < j < |s| ==> s[i] < s[j]
  }

  /** How much weight a database gives to the item set y. */
  function DbSup(db: seq<Trans>, y: set<nat>): nat {
    if db == [] then 0
    else DbSup(db[..|db| - 1], y) + (if y <= ToSet(db[|db| - 1].items) then db[|db| - 1].weight else 0)
  }

  lemma {:induction false} DbSupAppend(a: seq<Trans>, b: seq<Trans>, y: set<nat>)
    ensures DbSup(a + b, y) == DbSup(a, y) + DbSup(b, y)
  {
    if b == [] {
      assert a + b == a;
    } else {
      var n := |b| - 1;
      assert (a + b)[..|a + b| - 1] == a + b[..n];
      DbSupAppend(a, b[..n], y);
    }
  }

  /** A larger set is not more frequent. */
  lemma {:induction false} DbSupMonotone(db: seq<Trans>, y: set<nat>, z: set<nat>)
    requires y <= z
    ensures DbSup(db, z) <= DbSup(db, y)
  {
    if db != [] {
      DbSupMonotone(db[..|db| - 1], y, z);
    }
  }

  /** The counts of the nodes of item m that have all items of y above them; anc are the items above f. */
  function TreeSup(f: Forest, anc: set<nat>, m: nat, y: set<nat>): nat {
    match f
    case Nil => 0
    case Node(i, c, ch, sb) =>
      (if i == m && y <= anc then c else 0) + TreeSup(ch, anc + {i}, m, y) + TreeSup(sb, anc, m, y)
  }

  /** The same for a single branch of weight w. */
  function PathSup(p: seq<nat>, w: nat, anc: set<nat>, m: nat, y: set<nat>): nat {
    if p == [] then 0
    else (if p[0] == m && y <= anc then w else 0) + PathSup(p[1..], w, anc + {p[0]}, m, y)
  }

  /** On an ascending branch this is the weight if the branch has m and all of y, which is below m. */
  lemma {:induction false} PathSupIs(p: seq<nat>, w: nat, anc: set<nat>, m: nat, y: set<nat>)
    requires Ascending(p) && forall a :: a in y ==> a < m
    ensures PathSup(p, w, anc, m, y) == if m in p && y <= anc + ToSet(p) then w else 0
  {
    if p != [] {
      var q := p[1..];
      assert p == [p[0]] + q;
      ToSetAppend([p[0]], q);
      assert anc + ToSet(p) == anc + {p[0]} + ToSet(q);
      PathSupIs(q, w, anc + {p[0]}, m, y);
      if p[0] == m {
        assert m !in q;
        forall a | a in y
          ensures a !in ToSet(p)
        {
        }
        assert y <= anc + ToSet(p) <==> y <= anc;
      }
    }
  }

  lemma {:induction false} PathSupAppend(p: seq<nat>, i: nat, w: nat, anc: set<nat>, m: nat, y: set<nat>)
    ensures PathSup(p + [i], w, anc, m, y) ==
            PathSup(p, w, anc, m, y) + (if i == m && y <= anc + ToSet(p) then w else 0)
  {
    if p == [] {
      assert p + [i] == [i] && anc + ToSet(p) == anc;
    } else {
      assert (p + [i])[1..] == p[1..] + [i] && p == [p[0]] + p[1..];
      ToSetAppend([p[0]], p[1..]);
      assert anc + ToSet(p) == anc + {p[0]} + ToSet(p[1..]);
      PathSupAppend(p[1..], i, w, anc + {p[0]}, m, y);
    }
  }

  lemma {:induction false} PathSupSum(p: seq<nat>, v: nat, w: nat, anc: set<nat>, m: nat, y: set<nat>)
    ensures PathSup(p, v + w, anc, m, y) == PathSup(p, v, anc, m, y) + PathSup(p, w, anc, m, y)
  {
    if p != [] {
      PathSupSum(p[1..], v, w, anc + {p[0]}, m, y);
    }
  }

  /** A tree of one branch. */
  function Chain(p: seq<nat>, w: nat): Forest {
    if p == [] then Nil else Node(p[0], w, Chain(p[1..], w), Nil)
  }

  predicate HasItem(f: Forest, x: nat) {
    f.Node? && (f.item == x || HasItem(f.sib, x))
  }

  /** FP_tree::insert below one node: follow the branch as far as it exists; a new branch becomes the
      only child, or the sibling next to the first child. */
  function Insert(f: Forest, p: seq<nat>, w: nat): Forest
    decreases |p|, f
  {
    if p == [] then f
    else if HasItem(f, p[0]) then Descend(f, p, w)
    else if f == Nil then Chain(p, w)
    else f.(sib := Node(p[0], w, Chain(p[1..], w), f.sib))
  }

  function Descend(f: Forest, p: seq<nat>, w: nat): Forest
    requires p != [] && HasItem(f, p[0])
    decreases |p|, f, 0
  {
    if f.item == p[0] then f.(count := f.count + w, child := Insert(f.child, p[1..], w))
    else f.(sib := Descend(f.sib, p, w))
  }

  lemma {:induction false} ChainSup(p: seq<nat>, w: nat, anc: set<nat>, m: nat, y: set<nat>)
    ensures TreeSup(Chain(p, w), anc, m, y) == PathSup(p, w, anc, m, y)
  {
    if p != [] {
      ChainSup(p[1..], w, anc + {p[0]}, m, y);
    }
  }

  /** Inserting a branch adds exactly its weight to the sets it contains. */
  lemma {:induction false} InsertSup(f: Forest, p: seq<nat>, w: nat, anc: set<nat>, m: nat, y: set<nat>)
    ensures TreeSup(Insert(f, p, w), anc, m, y) == TreeSup(f, anc, m, y) + PathSup(p, w, anc, m, y)
    decreases |p|, f
  {
    if p != [] {
      if HasItem(f, p[0]) {
        DescendSup(f, p, w, anc, m, y);
      } else {
        ChainSup(p, w, anc, m, y);
      }
    }
  }

  lemma {:induction false} DescendSup(f: Forest, p: seq<nat>, w: nat, anc: set<nat>, m: nat, y: set<nat>)
    requires p != [] && HasItem(f, p[0])
    ensures TreeSup(Descend(f, p, w), anc, m, y) == TreeSup(f, anc, m, y) + PathSup(p, w, anc, m, y)
    decreases |p|, f, 0
  {
    if f.item == p[0] {
      InsertSup(f.child, p[1..], w, anc + {p[0]}, m, y);
    } else {
      DescendSup(f.sib, p, w, anc, m, y);
    }
  }

  /** For every node of item x, in preorder, the items above it from the root down and its count. */
  function Base(f: Forest, anc: seq<nat>, x: nat): seq<Trans> {
    match f
    case Nil => []
    case Node(i, c, ch, sb) =>
      (if i == x then [Trans(anc, c)] else []) + Base(ch, anc + [i], x) + Base(sb, anc, x)
  }

  /** These form the database conditional on x. */
  lemma {:induction false} BaseSup(f: Forest, anc: seq<nat>, x: nat, y: set<nat>)
    ensures DbSup(Base(f, anc, x), y) == TreeSup(f, ToSet(anc), x, y)
  {
    match f {
      case Nil =>
      case Node(i, c, ch, sb) =>
        var own := if i == x then [Trans(anc, c)] else [];
        BaseSup(ch, anc + [i], x, y);
        BaseSup(sb, anc, x, y);
        ToSetAppend(anc, [i]);
        assert ToSet([i]) == {i};
        DbSupAppend(own, Base(ch, anc + [i], x), y);
        DbSupAppend(own + Base(ch, anc + [i], x), Base(sb, anc, x), y);
        if i == x {
          assert own[..0] == [];
        }
    }
  }

  /** How many nodes item x has. */
  function NodeCount(f: Forest, x: nat): nat {
    match f
    case Nil => 0
    case Node(i, _, ch, sb) => (if i == x then 1 else 0) + NodeCount(ch, x) + NodeCount(sb, x)
  }

  lemma {:induction false} BaseLength(f: Forest, anc: seq<nat>, x: nat)
    ensures |Base(f, anc, x)| == NodeCount(f, x)
  {
    match f {
      case Nil =>
      case Node(i, c, ch, sb) =>
        BaseLength(ch, anc + [i], x);
        BaseLength(sb, anc, x);
    }
  }

  /** The tree of a database over n items: items ascend from the root, siblings differ, no count is 0. */
  predicate Trie(f: Forest, lo: nat, n: nat) {
    match f
    case Nil => true
    case Node(i, c, ch, sb) =>
      lo <= i < n && c > 0 && Trie(ch, i + 1, n) && Trie(sb, lo, n) && !HasItem(sb, i)
  }

  lemma {:induction false} InsertTrie(f: Forest, p: seq<nat>, w: nat, lo: nat, n: nat)
    requires Trie(f, lo, n) && Ascending(p) && w > 0 && forall i :: 0 <= i < |p| ==> lo <= p[i] < n
    ensures Trie(Insert(f, p, w), lo, n)
    ensures forall x :: HasItem(Insert(f, p, w), x) <==> HasItem(f, x) || (p != [] && p[0] == x)
    decreases |p|, f
  {
    if p != [] {
      if HasItem(f, p[0]) {
        DescendTrie(f, p, w, lo, n);
      } else {
        ChainTrie(p, w, lo, n);
      }
    }
  }

  lemma {:induction false} DescendTrie(f: Forest, p: seq<nat>, w: nat, lo: nat, n: nat)
    requires Trie(f, lo, n) && Ascending(p) && w > 0 && forall i :: 0 <= i < |p| ==> lo <= p[i] < n
    requires p != [] && HasItem(f, p[0])
    ensures Trie(Descend(f, p, w), lo, n)
    ensures forall x :: HasItem(Descend(f, p, w), x) <==> HasItem(f, x)
    decreases |p|, f, 0
  {
    if f.item == p[0] {
      InsertTrie(f.child, p[1..], w, f.item + 1, n);
    } else {
      DescendTrie(f.sib, p, w, lo, n);
    }
  }

  lemma {:induction false} ChainTrie(p: seq<nat>, w: nat, lo: nat, n: nat)
    requires Ascending(p) && w > 0 && forall i :: 0 <= i < |p| ==> lo <= p[i] < n
    ensures Trie(Chain(p, w), lo, n)
    ensures p != [] ==> Trie(Chain(p[1..], w), p[0] + 1, n)
  {
    if p != [] {
      ChainTrie(p[1..], w, p[0] + 1, n);
    }
  }

  /** The sum of the depths of the leaves below a list of siblings with d nodes above them. */
  function LeafSum(f: Forest, d: nat): nat
    decreases f, 0
  {
    match f
    case Nil => 0
    case Node(_, _, ch, sb) => LeafSumBelow(ch, d + 1) + LeafSum(sb, d)
  }

  /** The same below a node of depth d, which may be a leaf itself. */
  function LeafSumBelow(f: Forest, d: nat): nat
    decreases f, 1
  {
    if f == Nil then d else LeafSum(f, d)
  }

  lemma {:induction false} LeafSumDeep(f: Forest, d: nat)
    requires f != Nil
    ensures LeafSum(f, d) >= d + 1
  {
    if f.child != Nil {
      LeafSumDeep(f.child, d + 1);
    }
  }

  /** What insert adds to new_data_num: the length of a branch that hangs below a leaf, the depth of
      the new leaf if it starts a branch of its own. */
  function AddedData(f: Forest, p: seq<nat>, total: nat): nat
    decreases |p|, f
  {
    if p == [] then 0
    else if HasItem(f, p[0]) then AddedBelow(f, p, total)
    else if f == Nil then |p|
    else total
  }

  function AddedBelow(f: Forest, p: seq<nat>, total: nat): nat
    requires p != [] && HasItem(f, p[0])
    decreases |p|, f, 0
  {
    if f.item == p[0] then AddedData(f.child, p[1..], total) else AddedBelow(f.sib, p, total)
  }

  lemma {:induction false} ChainLeaf(p: seq<nat>, w: nat, d: nat)
    ensures LeafSumBelow(Chain(p, w), d) == d + |p|
  {
    if p != [] {
      ChainLeaf(p[1..], w, d + 1);
      assert LeafSum(Node(p[0], w, Chain(p[1..], w), Nil), d) == LeafSumBelow(Chain(p[1..], w), d + 1);
    }
  }

  lemma {:induction false} InsertLeaves(f: Forest, p: seq<nat>, w: nat, d: nat)
    ensures LeafSumBelow(Insert(f, p, w), d) == LeafSumBelow(f, d) + AddedData(f, p, d + |p|)
    decreases |p|, f
  {
    if p != [] {
      if HasItem(f, p[0]) {
        DescendLeaves(f, p, w, d);
      } else {
        ChainLeaf(p, w, d);
        ChainLeaf(p[1..], w, d + 1);
        if f != Nil {
          var g := Node(p[0], w, Chain(p[1..], w), f.sib);
          assert LeafSum(g, d) == LeafSumBelow(Chain(p[1..], w), d + 1) + LeafSum(f.sib, d);
        }
      }
    }
  }

  lemma {:induction false} DescendLeaves(f: Forest, p: seq<nat>, w: nat, d: nat)
    requires p != [] && HasItem(f, p[0])
    ensures LeafSum(Descend(f, p, w), d) == LeafSum(f, d) + AddedBelow(f, p, d + |p|)
    decreases |p|, f, 0
  {
    if f.item == p[0] {
      InsertLeaves(f.child, p[1..], w, d + 1);
    } else {
      DescendLeaves(f.sib, p, w, d);
    }
  }

  /** What insert adds to nodenum. */
  function AddedNodes(f: Forest, p: seq<nat>): seq<nat>
    decreases |p|, f
  {
    if p == [] then [] else if HasItem(f, p[0]) then AddedNodesBelow(f, p) else p
  }

  function AddedNodesBelow(f: Forest, p: seq<nat>): seq<nat>
    requires p != [] && HasItem(f, p[0])
    decreases |p|, f, 0
  {
    if f.item == p[0] then AddedNodes(f.child, p[1..]) else AddedNodesBelow(f.sib, p)
  }

  function Occurs(p: seq<nat>, x: nat): nat {
    if p == [] then 0 else (if p[0] == x then 1 else 0) + Occurs(p[1..], x)
  }

  lemma {:induction false} ChainNodes(p: seq<nat>, w: nat, x: nat)
    ensures NodeCount(Chain(p, w), x) == Occurs(p, x)
  {
    if p != [] {
      ChainNodes(p[1..], w, x);
    }
  }

  lemma {:induction false} InsertNodes(f: Forest, p: seq<nat>, w: nat, x: nat)
    ensures NodeCount(Insert(f, p, w), x) == NodeCount(f, x) + Occurs(AddedNodes(f, p), x)
    decreases |p|, f
  {
    if p != [] {
      if HasItem(f, p[0]) {
        DescendNodes(f, p, w, x);
      } else {
        ChainNodes(p, w, x);
      }
    }
  }

  lemma {:induction false} DescendNodes(f: Forest, p: seq<nat>, w: nat, x: nat)
    requires p != [] && HasItem(f, p[0])
    ensures NodeCount(Descend(f, p, w), x) == NodeCount(f, x) + Occurs(AddedNodesBelow(f, p), x)
    decreases |p|, f, 0
  {
    if f.item == p[0] {
      InsertNodes(f.child, p[1..], w, x);
    } else {
      DescendNodes(f.sib, p, w, x);
    }
  }
}
