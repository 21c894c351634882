/** The look-up table for the first level below the hot nodes of the small masks, with which insert saves
    the walk along the siblings, and its reset. */
module FpTable {
  import opened Chunks
  import opened FpForest
  import opened FpMasks
  import opened FpGrow

  /** How many masks have a row in the table. */
  const TABLE_SIZE: nat := 16

  /** A new branch becomes the only child, or the sibling next to the first child. */
  function AddBranch(f: Forest, p: seq<nat>, w: nat): Forest
    requires p != []
  {
    if f == Nil then Chain(p, w) else f.(sib := Node(p[0], w, Chain(p[1..], w), f.sib))
  }

  /** The child that an entry points to, named by its item, is counted and the rest of the branch goes
      below it. */
  function Follow(f: Forest, y: nat, p: seq<nat>, w: nat): Forest
    requires p != [] && HasItem(f, y)
    decreases f
  {
    if f.item == y then f.(count := f.count + w, child := Insert(f.child, p[1..], w))
    else f.(sib := Follow(f.sib, y, p, w))
  }

  /** What is below that child. */
  function BelowItem(f: Forest, y: nat): Forest
    requires HasItem(f, y)
    decreases f
  {
    if f.item == y then f.child else BelowItem(f.sib, y)
  }

  /** An entry that points to a node points to one that is there. */
  predicate Points(e: Option<nat>, f: Forest) { e.Some? ==> HasItem(f, e.value) }

  /** insert below a hot node whose mask has a row: the entry alone decides the first level, whatever
      item the branch begins with. */
  function InsertBy(e: Option<nat>, f: Forest, p: seq<nat>, w: nat): Forest
    requires p != [] && Points(e, f)
  {
    match e
    case None => AddBranch(f, p, w)
    case Some(y) => Follow(f, y, p, w)
  }

  /** What it adds to nodenum and to new_data_num. */
  function NodesBy(e: Option<nat>, f: Forest, p: seq<nat>): seq<nat>
    requires p != [] && Points(e, f)
  {
    match e
    case None => p
    case Some(y) => AddedNodes(BelowItem(f, y), p[1..])
  }

  function DataBy(e: Option<nat>, f: Forest, p: seq<nat>, total: nat): nat
    requires p != [] && Points(e, f)
  {
    match e
    case None => if f == Nil then |p| else total
    case Some(y) => AddedData(BelowItem(f, y), p[1..], total)
  }

  lemma {:induction false} FollowDescends(f: Forest, p: seq<nat>, w: nat, total: nat)
    requires p != [] && HasItem(f, p[0])
    ensures Follow(f, p[0], p, w) == Descend(f, p, w)
    ensures AddedNodes(BelowItem(f, p[0]), p[1..]) == AddedNodesBelow(f, p)
    ensures AddedData(BelowItem(f, p[0]), p[1..], total) == AddedBelow(f, p, total)
    decreases f
  {
    if f.item != p[0] {
      FollowDescends(f.sib, p, w, total);
    }
  }

  /** The entry that a forest of children should have for item x. */
  function EntryFor(f: Forest, x: nat): Option<nat> { if HasItem(f, x) then Some(x) else None }

  /** With the right entry this is insertion with the walk along the siblings. */
  lemma {:induction false} ByEntry(f: Forest, p: seq<nat>, w: nat, total: nat)
    requires p != []
    ensures var e := EntryFor(f, p[0]);
            && InsertBy(e, f, p, w) == Insert(f, p, w) && NodesBy(e, f, p) == AddedNodes(f, p)
            && DataBy(e, f, p, total) == AddedData(f, p, total)
  {
    if HasItem(f, p[0]) {
      FollowDescends(f, p, w, total);
    }
  }

  /** Only the right entry does: one that is missing makes a second child for the same item, and one
      that points to another child counts that child. */
  lemma {:induction false} WrongEntry(e: Option<nat>, f: Forest, p: seq<nat>, w: nat)
    requires p != [] && w > 0 && Points(e, f) && e != EntryFor(f, p[0])
    ensures InsertBy(e, f, p, w) != Insert(f, p, w)
  {
    match e
    case None =>
      DescendKeepsLength(f, p, w);
    case Some(y) =>
      FollowCounts(f, y, p, w);
      if HasItem(f, p[0]) {
        DescendCounts(f, p, w, y);
      } else {
        FollowKeepsLength(f, y, p, w);
      }
  }

  function Siblings(f: Forest): nat { if f == Nil then 0 else 1 + Siblings(f.sib) }

  lemma {:induction false} DescendKeepsLength(f: Forest, p: seq<nat>, w: nat)
    requires p != [] && HasItem(f, p[0])
    ensures Siblings(Descend(f, p, w)) == Siblings(f)
    decreases f
  {
    if f.item != p[0] {
      DescendKeepsLength(f.sib, p, w);
    }
  }

  lemma {:induction false} FollowKeepsLength(f: Forest, y: nat, p: seq<nat>, w: nat)
    requires p != [] && HasItem(f, y)
    ensures Siblings(Follow(f, y, p, w)) == Siblings(f)
    decreases f
  {
    if f.item != y {
      FollowKeepsLength(f.sib, y, p, w);
    }
  }

  /** The counts of all children of item x. */
  function CountOfItem(f: Forest, x: nat): nat {
    if f == Nil then 0 else (if f.item == x then f.count else 0) + CountOfItem(f.sib, x)
  }

  lemma {:induction false} FollowCounts(f: Forest, y: nat, p: seq<nat>, w: nat)
    requires p != [] && HasItem(f, y)
    ensures CountOfItem(Follow(f, y, p, w), y) == CountOfItem(f, y) + w
    decreases f
  {
    if f.item != y {
      FollowCounts(f.sib, y, p, w);
    }
  }

  lemma {:induction false} DescendCounts(f: Forest, p: seq<nat>, w: nat, y: nat)
    requires p != [] && HasItem(f, p[0]) && y != p[0]
    ensures CountOfItem(Descend(f, p, w), y) == CountOfItem(f, y)
    decreases f
  {
    if f.item != p[0] {
      DescendCounts(f.sib, p, w, y);
    }
  }

  lemma {:induction false} DescendHas(f: Forest, p: seq<nat>, w: nat, x: nat)
    requires p != [] && HasItem(f, p[0])
    ensures HasItem(Descend(f, p, w), x) <==> HasItem(f, x)
    decreases f
  {
    if f.item != p[0] {
      DescendHas(f.sib, p, w, x);
    }
  }

  lemma {:induction false} InsertHas(f: Forest, p: seq<nat>, w: nat, x: nat)
    ensures HasItem(Insert(f, p, w), x) <==> HasItem(f, x) || (p != [] && p[0] == x)
  {
    if p != [] && HasItem(f, p[0]) {
      DescendHas(f, p, w, x);
    }
  }

  /** scan2 with one transaction that has items that are not hot, below a mask that has a row. */
  function AddBy(e: Option<nat>, g: Growing, mask: nat, cold: seq<nat>, w: nat): Growing
    requires mask < |g.kids| && mask < |g.hot| && mask < |g.present| && cold != [] && Points(e, g.kids[mask])
  {
    var f := g.kids[mask];
    var added := NodesBy(e, f, cold);
    Growing(g.kids[mask := InsertBy(e, f, cold, w)], g.hot[mask := g.hot[mask] + w], g.present[mask := true],
            seq(|g.nodenum|, (x: nat) requires x < |g.nodenum| => g.nodenum[x] + Occurs(added, x)),
            g.data + DataBy(e, f, cold, |cold| + |Bits(mask)|))
  }

  lemma AddByEntry(g: Growing, mask: nat, cold: seq<nat>, w: nat)
    requires mask < |g.kids| && mask < |g.hot| && mask < |g.present| && cold != []
    ensures AddBy(EntryFor(g.kids[mask], cold[0]), g, mask, cold, w) == AddTrans(g, mask, cold, w)
  {
    hide InsertBy, Insert, NodesBy, AddedNodes, DataBy, AddedData, Bits, HasItem;
    ByEntry(g.kids[mask], cold, w, |cold| + |Bits(mask)|);
  }

  /** The children of the hot node of mask k. */
  function KidsAt(g: Growing, k: nat): Forest { if k < |g.kids| then g.kids[k] else Nil }

  predicate IsTable(fast: array2<Option<nat>>, n: nat) { fast.Length0 == TABLE_SIZE && n <= fast.Length1 }

  /** Every entry is the right one. */
  ghost predicate EntriesOk(fast: array2<Option<nat>>, g: Growing)
    reads fast
  {
    forall k: nat, x: nat :: k < fast.Length0 && x < fast.Length1 ==> fast[k, x] == EntryFor(KidsAt(g, k), x)
  }

  /** The places of all entries that are set are on the stack. */
  ghost predicate Backed(fast: array2<Option<nat>>, stack: seq<(nat, nat)>)
    reads fast
  {
    && (forall j :: 0 <= j < |stack| ==> stack[j].0 < fast.Length0 && stack[j].1 < fast.Length1)
    && forall k: nat, x: nat :: k < fast.Length0 && x < fast.Length1 && fast[k, x] != None ==> (k, x) in stack
  }

  ghost predicate IsEmpty(fast: array2<Option<nat>>)
    reads fast
  {
    forall k: nat, x: nat :: k < fast.Length0 && x < fast.Length1 ==> fast[k, x] == None
  }

  lemma EmptyEntries(fast: array2<Option<nat>>, h: nat, n: nat)
    requires IsEmpty(fast)
    ensures EntriesOk(fast, Empty(h, n)) && Backed(fast, [])
  {
  }

  lemma AddTransEntry(g: Growing, mask: nat, cold: seq<nat>, w: nat, k: nat, x: nat)
    requires mask < |g.kids| && mask < |g.hot| && mask < |g.present|
    ensures var f := KidsAt(AddTrans(g, mask, cold, w), k);
            EntryFor(f, x) == if k == mask && cold != [] && x == cold[0] then Some(x) else EntryFor(KidsAt(g, k), x)
  {
    hide Insert, AddedNodes, AddedData, Bits, Occurs;
    InsertHas(g.kids[mask], cold, w, x);
  }

  /** One transaction of the scan: the look-up decides, and a new entry is set and pushed. */
  method AddFast(g: Growing, mask: nat, cold: seq<nat>, w: nat, fast: array2<Option<nat>>, stack: seq<(nat, nat)>)
    returns (g': Growing, stack': seq<(nat, nat)>)
    requires mask < |g.kids| && mask < |g.hot| && mask < |g.present|
    requires fast.Length0 == TABLE_SIZE && forall j :: 0 <= j < |cold| ==> cold[j] < fast.Length1
    requires EntriesOk(fast, g) && Backed(fast, stack)
    modifies fast
    ensures g' == AddTrans(g, mask, cold, w)
    ensures EntriesOk(fast, g') && Backed(fast, stack')
  {
    hide AddTrans, AddBy, HasItem, KidsAt;
    forall k: nat, x: nat
      ensures var f := KidsAt(AddTrans(g, mask, cold, w), k);
              EntryFor(f, x) == if k == mask && cold != [] && x == cold[0] then Some(x) else EntryFor(KidsAt(g, k), x)
    {
      AddTransEntry(g, mask, cold, w, k, x);
    }
    if cold == [] || mask >= TABLE_SIZE {
      g', stack' := AddTrans(g, mask, cold, w), stack;
    } else {
      var e := fast[mask, cold[0]];
      KidsHere(g, mask);
      AddByEntry(g, mask, cold, w);
      EntryPoints(g.kids[mask], cold[0]);
      g', stack' := AddBy(e, g, mask, cold, w), stack;
      if e == None {
        fast[mask, cold[0]] := Some(cold[0]);
        stack' := stack + [(mask, cold[0])];
      }
    }
  }

  lemma KidsHere(g: Growing, mask: nat)
    requires mask < |g.kids|
    ensures KidsAt(g, mask) == g.kids[mask]
  {
  }

  lemma EntryPoints(f: Forest, x: nat)
    ensures Points(EntryFor(f, x), f)
  {
  }

  /** The entries are taken back through the stack, and the table is empty again. */
  method Reset(fast: array2<Option<nat>>, stack: seq<(nat, nat)>)
    requires Backed(fast, stack)
    modifies fast
    ensures IsEmpty(fast)
  {
    for i := 0 to |stack|
      invariant Backed(fast, stack)
      invariant forall j :: 0 <= j < i ==> fast[stack[j].0, stack[j].1] == None
    {
      fast[stack[i].0, stack[i].1] := None;
    }
  }
}
