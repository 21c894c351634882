/** The second scan: every transaction of the conditional database goes into the new tree. */
module FpScan {
  import opened FpForest
  import opened FpArray
  import opened FpMasks
  import opened FpGrow
  import opened FpBuild
  import opened FpSame
  import opened FpTable
  import opened Chunks

  /** The new numbers of the frequent items among the given ones. */
  function Image(order: seq<int>, items: seq<nat>): set<nat> {
    set j | 0 <= j < |items| && items[j] < |order| && order[items[j]] >= 0 :: order[items[j]] as nat
  }

  lemma ImageStep(order: seq<int>, items: seq<nat>, j: nat)
    requires 0 < j <= |items| && items[j - 1] < |order|
    ensures Image(order, items[j - 1..]) ==
            Image(order, items[j..]) + (if order[items[j - 1]] >= 0 then {order[items[j - 1]] as nat} else {})
  {
    var a := items[j - 1..];
    assert a == [items[j - 1]] + items[j..];
    var v := order[items[j - 1]];
    forall k: nat | k in Image(order, items[j..])
      ensures k in Image(order, a)
    {
      var q :| 0 <= q < |items[j..]| && items[j..][q] < |order| && order[items[j..][q]] == k;
      assert a[q + 1] == items[j..][q];
    }
    if v >= 0 {
      assert a[0] == items[j - 1] && v as nat in Image(order, a);
    }
  }

  /** Every item is mapped to -1 or to a new number below n, no two to the same number. */
  predicate Maps(order: seq<int>, items: seq<nat>, n: nat) {
    && (forall j :: 0 <= j < |items| ==> items[j] < |order| && -1 <= order[items[j]] < n)
    && (forall i, j :: 0 <= i < j < |items| && order[items[i]] == order[items[j]] ==> order[items[i]] == -1)
  }

  /** fill_count: the flagged items in ascending order; the flags are taken back. */
  method FillCount(origin: array<bool>, h: nat, maxItem: nat) returns (compact: seq<nat>)
    requires maxItem < origin.Length
    requires forall i :: 0 <= i < origin.Length && origin[i] ==> h <= i <= maxItem
    modifies origin
    ensures forall i :: 0 <= i < origin.Length ==> !origin[i]
    ensures Ascending(compact)
    ensures forall i: nat :: i in compact <==> i < origin.Length && old(origin[i])
  {
    compact := [];
    var i := h;
    while i <= maxItem
      invariant h <= i
      invariant forall k :: 0 <= k < origin.Length ==> origin[k] == (if k < i then false else old(origin[k]))
      invariant Ascending(compact) && forall k :: 0 <= k < |compact| ==> compact[k] < i
      invariant forall k: nat :: k in compact <==> k < i && k < origin.Length && old(origin[k])
      decreases maxItem + 1 - i
    {
      if origin[i] {
        compact := compact + [i];
        origin[i] := false;
      }
      i := i + 1;
    }
  }

  lemma {:induction false} AscendingCard(s: seq<nat>)
    requires Ascending(s)
    ensures |ToSet(s)| == |s|
  {
    if s == [] {
    } else {
      var n := |s| - 1;
      AscendingCard(s[..n]);
      assert s == s[..n] + [s[n]];
      ToSetAppend(s[..n], [s[n]]);
      assert ToSet([s[n]]) == {s[n]};
      assert s[n] !in ToSet(s[..n]);
    }
  }

  function Hot(s: set<nat>, h: nat): set<nat> { set k | k in s && k < h }

  function Cold(s: set<nat>, h: nat): set<nat> { set k | k in s && k >= h }

  lemma AddHot(s: set<nat>, v: nat, h: nat)
    requires v < h
    ensures Hot(s + {v}, h) == Hot(s, h) + {v} && Cold(s + {v}, h) == Cold(s, h)
  {
  }

  lemma AddCold(s: set<nat>, v: nat, h: nat)
    requires v >= h
    ensures Cold(s + {v}, h) == Cold(s, h) + {v} && Hot(s + {v}, h) == Hot(s, h)
  {
  }

  /** The state when the new numbers in seen have been read from a transaction: the hot ones are bits of
      the mask, the others are flagged. */
  ghost predicate Reading(seen: set<nat>, h: nat, mask: nat, has: nat, maxItem: nat, origin: seq<bool>) {
    && mask < Pow2(h)
    && ToSet(Bits(mask)) == Hot(seen, h)
    && (forall k: nat :: k < |origin| ==> (origin[k] <==> k in Cold(seen, h)))
    && has == |Cold(seen, h)|
    && (forall k :: k in Cold(seen, h) ==> k <= maxItem)
  }

  lemma ReadHot(seen: set<nat>, v: nat, h: nat, mask: nat, has: nat, maxItem: nat, origin: seq<bool>)
    requires v < h && Reading(seen, h, mask, has, maxItem, origin)
    ensures Reading(seen + {v}, h, SetBit(mask, v), has, maxItem, origin)
  {
    hide SetBit, Bits, Pow2;
    SetBitIs(mask, v, h);
    AddHot(seen, v, h);
  }

  lemma ReadCold(seen: set<nat>, v: nat, h: nat, mask: nat, has: nat, maxItem: nat, origin: seq<bool>)
    requires h <= v < |origin| && v !in seen && Reading(seen, h, mask, has, maxItem, origin)
    ensures Reading(seen + {v}, h, mask, has + 1, if v > maxItem then v else maxItem, origin[v := true])
  {
    hide SetBit, Bits, Pow2;
    AddCold(seen, v, h);
    assert v !in Cold(seen, h);
  }

  lemma ReadNone(h: nat, origin: seq<bool>)
    requires forall k :: 0 <= k < |origin| ==> !origin[k]
    ensures Reading({}, h, 0, 0, 0, origin)
  {
  }

  /** An item that is still to come has a number that was not seen. */
  lemma NotSeen(order: seq<int>, items: seq<nat>, j: nat, n: nat)
    requires 0 < j <= |items| && Maps(order, items, n)
    ensures order[items[j - 1]] >= 0 ==> order[items[j - 1]] !in Image(order, items[j..])
  {
    var v := order[items[j - 1]];
    forall q | 0 <= q < |items[j..]| && v >= 0
      ensures order[items[j..][q]] != v
    {
      assert items[j..][q] == items[j + q];
    }
  }

  /** The inner loop of the scan: one transaction becomes a mask and an ascending list. */
  method ReadTrans(
        items: seq<nat>, e: Entry, mark: nat, order: seq<int>, h: nat, n: nat, origin: array<bool>, ghost t: Trans)
    returns (mask: nat, compact: seq<nat>)
    requires EntryOk(items, e, t, mark) && Maps(order, t.items, n) && h <= n <= origin.Length
    requires forall i :: 0 <= i < origin.Length ==> !origin[i]
    modifies origin
    ensures forall i :: 0 <= i < origin.Length ==> !origin[i]
    ensures mask < Pow2(h) && ToSet(Bits(mask) + compact) == Image(order, t.items)
    ensures Ascending(compact) && forall k :: 0 <= k < |compact| ==> h <= compact[k] < n
  {
    var has, maxItem;
    mask, has, maxItem := ReadItems(items, e, mark, order, h, n, origin, t);
    ghost var im := Image(order, t.items);
    if has != 0 {
      compact := FillCount(origin, h, maxItem);
    } else {
      compact := [];
    }
    ColdIs(im, h, n, compact, has);
    ToSetAppend(Bits(mask), compact);
    HotCold(im, h);
  }

  lemma HotCold(s: set<nat>, h: nat)
    ensures s == Hot(s, h) + Cold(s, h)
  {
  }

  lemma ColdIs(im: set<nat>, h: nat, n: nat, compact: seq<nat>, has: nat)
    requires has == |Cold(im, h)| && if has == 0 then compact == [] else forall k: nat :: k in compact <==>
             k in Cold(im, h)
    requires forall k :: k in im ==> k < n
    ensures ToSet(compact) == Cold(im, h)
    ensures forall k :: 0 <= k < |compact| ==> h <= compact[k] < n
  {
    forall k | 0 <= k < |compact|
      ensures h <= compact[k] < n
    {
      assert compact[k] in compact;
    }
  }

  /** One item: a hot one sets its bit, any other is flagged. */
  method ReadItem(
        item: int, h: nat, n: nat, mask0: nat, has0: nat, maxItem0: nat, origin: array<bool>, ghost seen: set<nat>)
    returns (mask: nat, has: nat, maxItem: nat)
    requires -1 <= item < n <= origin.Length && h <= n && (item >= 0 ==> item !in seen)
    requires Reading(seen, h, mask0, has0, maxItem0, origin[..]) && (maxItem0 < n || maxItem0 == 0)
    requires has0 != 0 ==> maxItem0 < n
    modifies origin
    ensures Reading(if item >= 0 then seen + {item} else seen, h, mask, has, maxItem, origin[..])
    ensures (maxItem < n || maxItem == 0) && (has != 0 ==> maxItem < n)
  {
    hide Reading, SetBit;
    mask, has, maxItem := mask0, has0, maxItem0;
    if item < h {
      if item != -1 {
        ReadHot(seen, item, h, mask, has, maxItem, origin[..]);
        mask := SetBit(mask, item);
      }
    } else {
      ReadCold(seen, item, h, mask, has, maxItem, origin[..]);
      origin[item] := true;
      has := has + 1;
      if item > maxItem {
        maxItem := item;
      }
    }
  }

  /** The first j items of the entry have been read. */
  ghost predicate Progress(items: seq<nat>, e: Entry, mark: nat, order: seq<int>, h: nat, n: nat, t: Trans, j: nat,
                           mask: nat, has: nat, maxItem: nat, origin: seq<bool>)
  {
    && j <= |t.items| && e.begin + j < |items| && (items[e.begin + j] != mark <==> j < |t.items|)
    && Reading(Image(order, t.items[|t.items| - j..]), h, mask, has, maxItem, origin)
    && (maxItem < n || maxItem == 0) && (has != 0 ==> maxItem < n)
  }

  method ReadNext(
        items: seq<nat>, e: Entry, mark: nat, order: seq<int>, h: nat, n: nat, origin: array<bool>, ghost t: Trans,
        j: nat, mask0: nat, has0: nat, maxItem0: nat)
    returns (mask: nat, has: nat, maxItem: nat)
    requires EntryOk(items, e, t, mark) && Maps(order, t.items, n) && h <= n <= origin.Length && j < |t.items|
    requires Progress(items, e, mark, order, h, n, t, j, mask0, has0, maxItem0, origin[..])
    modifies origin
    ensures Progress(items, e, mark, order, h, n, t, j + 1, mask, has, maxItem, origin[..])
  {
    hide Reading, Image, EntryOk, Maps;
    ghost var seen, next := Image(order, t.items[|t.items| - j..]), Image(order, t.items[|t.items| - 1 - j..]);
    NextItem(items, e, t, mark, order, n, j, seen, next);
    mask, has, maxItem := ReadItem(order[items[e.begin + j]], h, n, mask0, has0, maxItem0, origin, seen);
  }

  method ReadItems(
        items: seq<nat>, e: Entry, mark: nat, order: seq<int>, h: nat, n: nat, origin: array<bool>, ghost t: Trans)
    returns (mask: nat, has: nat, maxItem: nat)
    requires EntryOk(items, e, t, mark) && Maps(order, t.items, n) && h <= n <= origin.Length
    requires forall i :: 0 <= i < origin.Length ==> !origin[i]
    modifies origin
    ensures Reading(Image(order, t.items), h, mask, has, maxItem, origin[..])
    ensures has != 0 ==> maxItem < n
    ensures forall k :: k in Image(order, t.items) ==> k < n
  {
    hide Progress, Reading, Image, EntryOk, Maps;
    mask, has, maxItem := 0, 0, 0;
    ReadBegin(items, e, t, mark, order, h, n, origin[..]);
    var j := 0;
    ProgressAt(items, e, mark, order, h, n, t, j, mask, has, maxItem, origin[..]);
    while items[e.begin + j] != mark
      invariant Progress(items, e, mark, order, h, n, t, j, mask, has, maxItem, origin[..])
      invariant j <= |t.items| && e.begin + j < |items| && (items[e.begin + j] != mark <==> j < |t.items|)
      decreases |t.items| - j
    {
      mask, has, maxItem := ReadNext(items, e, mark, order, h, n, origin, t, j, mask, has, maxItem);
      j := j + 1;
      ProgressAt(items, e, mark, order, h, n, t, j, mask, has, maxItem, origin[..]);
    }
    ReadEnd(items, e, mark, order, h, n, t, j, mask, has, maxItem, origin[..]);
  }

  lemma ReadBegin(items: seq<nat>, e: Entry, t: Trans, mark: nat, order: seq<int>, h: nat, n: nat, origin: seq<bool>)
    requires EntryOk(items, e, t, mark) && forall k :: 0 <= k < |origin| ==> !origin[k]
    ensures Progress(items, e, mark, order, h, n, t, 0, 0, 0, 0, origin)
  {
    hide EntryOk, Reading;
    NoImage(order, t.items);
    ReadNone(h, origin);
    EntryAt(items, e, t, mark, 0);
  }

  lemma ProgressAt(items: seq<nat>, e: Entry, mark: nat, order: seq<int>, h: nat, n: nat, t: Trans, j: nat,
                   mask: nat, has: nat, maxItem: nat, origin: seq<bool>)
    requires Progress(items, e, mark, order, h, n, t, j, mask, has, maxItem, origin)
    ensures j <= |t.items| && e.begin + j < |items| && (items[e.begin + j] != mark <==> j < |t.items|)
  {
  }

  lemma ReadEnd(items: seq<nat>, e: Entry, mark: nat, order: seq<int>, h: nat, n: nat, t: Trans, j: nat,
                mask: nat, has: nat, maxItem: nat, origin: seq<bool>)
    requires Progress(items, e, mark, order, h, n, t, j, mask, has, maxItem, origin) && j == |t.items|
    requires Maps(order, t.items, n)
    ensures Reading(Image(order, t.items), h, mask, has, maxItem, origin)
    ensures has != 0 ==> maxItem < n
    ensures forall k :: k in Image(order, t.items) ==> k < n
  {
    hide Reading;
    assert t.items[0..] == t.items;
    ImageBelow(order, t.items, n);
  }

  /** What is read at distance j from the beginning of an entry. */
  lemma EntryAt(items: seq<nat>, e: Entry, t: Trans, mark: nat, j: nat)
    requires EntryOk(items, e, t, mark) && j <= |t.items|
    ensures e.begin + j < |items| && (items[e.begin + j] != mark <==> j < |t.items|)
    ensures j < |t.items| ==> items[e.begin + j] == t.items[|t.items| - 1 - j]
  {
  }

  lemma NextItem(
        items: seq<nat>, e: Entry, t: Trans, mark: nat, order: seq<int>, n: nat, j: nat, seen: set<nat>, next: set<nat>)
    requires EntryOk(items, e, t, mark) && Maps(order, t.items, n) && j < |t.items|
    requires seen == Image(order, t.items[|t.items| - j..]) && next == Image(order, t.items[|t.items| - 1 - j..])
    ensures e.begin + j + 1 < |items| && (items[e.begin + j + 1] != mark <==> j + 1 < |t.items|)
    ensures items[e.begin + j] < |order|
    ensures var v := order[items[e.begin + j]];
            -1 <= v < n && (v >= 0 ==> v !in seen && next == seen + {v}) && (v < 0 ==> next == seen)
  {
    hide Image;
    var size := |t.items|;
    EntryAt(items, e, t, mark, j);
    EntryAt(items, e, t, mark, j + 1);
    MapAt(order, t.items, n, size - 1 - j);
    ImageStep(order, t.items, size - j);
    NotSeen(order, t.items, size - j, n);
  }

  lemma MapAt(order: seq<int>, items: seq<nat>, n: nat, j: nat)
    requires Maps(order, items, n) && j < |items|
    ensures items[j] < |order| && -1 <= order[items[j]] < n
  {
  }

  lemma NoImage(order: seq<int>, items: seq<nat>)
    ensures Image(order, items[|items|..]) == {}
  {
  }

  lemma ImageBelow(order: seq<int>, items: seq<nat>, n: nat)
    requires Maps(order, items, n)
    ensures forall k :: k in Image(order, items) ==> k < n
  {
  }

  /** The weight the mapped database gives to a set of new numbers. */
  function MapSup(db: seq<Trans>, order: seq<int>, s: set<nat>): nat {
    if db == [] then 0
    else MapSup(db[..|db| - 1], order, s) + (if s <= Image(order, db[|db| - 1].items) then db[|db| - 1].weight else 0)
  }

  /** The branches ps are the mapped transactions of db. */
  ghost predicate Mapped(ps: seq<Trans>, db: seq<Trans>, order: seq<int>) {
    && |ps| == |db|
    && forall k :: 0 <= k < |ps| ==>
         Ascending(ps[k].items) && ps[k].weight == db[k].weight && ToSet(ps[k].items) == Image(order, db[k].items)
  }

  predicate Below(y: set<nat>, m: nat) { forall a :: a in y ==> a < m }

  lemma {:induction false} MappedSup(ps: seq<Trans>, db: seq<Trans>, order: seq<int>, m: nat, y: set<nat>)
    requires Mapped(ps, db, order) && Below(y, m)
    ensures PathsSup(ps, m, y) == MapSup(db, order, y + {m})
  {
    hide Image;
    if db != [] {
      var n := |db| - 1;
      MappedSup(ps[..n], db[..n], order, m, y);
      PathSupIs(ps[n].items, ps[n].weight, {}, m, y);
      assert y + {m} <= ToSet(ps[n].items) <==> m in ps[n].items && y <= {} + ToSet(ps[n].items);
    }
  }

  /** What the second scan builds: a trie over n items that gives every set of items the weight that
      the mapped database gives it, with the counters that the next transformation relies on. */
  ghost predicate Conditional(root: Forest, n: nat, nodenum: seq<nat>, data: nat, db: seq<Trans>, order: seq<int>) {
    && Trie(root, 0, n) && Sized(root, n, nodenum, data)
    && forall m: nat, y: set<nat> {:trigger TreeSup(root, {}, m, y)} ::
         Below(y, m) ==> TreeSup(root, {}, m, y) == MapSup(db, order, y + {m})
  }

  /** The tree is, up to the order of siblings, the one that results from inserting the filtered and
      sorted transactions one by one. */
  ghost predicate LikeInsertion(root: Forest, db: seq<Trans>, order: seq<int>) {
    exists ps :: Mapped(ps, db, order) && SameTree(root, InsertAll(ps))
  }

  lemma BranchAscends(mask: nat, h: nat, cold: seq<nat>)
    requires mask < Pow2(h) && Ascending(cold) && forall k :: 0 <= k < |cold| ==> h <= cold[k]
    ensures Ascending(Bits(mask) + cold)
  {
    hide Bits, Pow2;
    BitsBelow(mask, h);
  }

  /** num_hot_item, as scan1_DB sets it. */
  function NumHot(itemno: nat, sumItemNum: nat): nat {
    var h := if itemno > HOT_ITEM_NUM1 * 2 then HOT_ITEM_NUM1 else itemno / 2;
    if Pow2(h) > sumItemNum / 8 then 0 else h
  }

  /** It is half the items but no more than HOT_ITEM_NUM1, if there are eight occurrences for each of the
      masks; otherwise there are no hot items. */
  lemma NumHotIs(itemno: nat, sumItemNum: nat)
    ensures var h := NumHot(itemno, sumItemNum);
            && h <= HOT_ITEM_NUM1 && 2 * h <= itemno && (h > 0 ==> 8 * Pow2(h) <= sumItemNum)
            && (h > 0 ==> h == HOT_ITEM_NUM1 || 2 * h + 2 > itemno)
    ensures itemno > 2 * HOT_ITEM_NUM1 && 8 * Pow2(HOT_ITEM_NUM1) <= sumItemNum ==>
            NumHot(itemno, sumItemNum) == HOT_ITEM_NUM1
    ensures itemno <= 2 * HOT_ITEM_NUM1 && 8 * Pow2(itemno / 2) <= sumItemNum ==>
            NumHot(itemno, sumItemNum) == itemno / 2
  {
  }

  /** FPArray_scan2_DB. It finds and leaves the look-up table empty. */
  method Scan2(p: Packed, x: nat, mark: nat, order: seq<int>, n: nat, h: nat, origin: array<bool>,
               fast: array2<Option<nat>>, ghost db: seq<Trans>)
    returns (root: Forest, nodenum: seq<nat>, data: nat)
    requires x < |p.nodes| && ItemOk(p.items, p.nodes[x], db, -1, mark) && DbOk(db, x)
    requires forall k :: 0 <= k < |db| ==> Maps(order, db[k].items, n)
    requires h <= n <= origin.Length && forall i :: 0 <= i < origin.Length ==> !origin[i]
    requires IsTable(fast, n) && IsEmpty(fast)
    modifies origin, fast
    ensures forall i :: 0 <= i < origin.Length ==> !origin[i]
    ensures IsEmpty(fast)
    ensures Conditional(root, n, nodenum, data, db, order) && LikeInsertion(root, db, order)
  {
    hide Grows, Empty, AddTrans, Mapped, Maps, Image, Pow2, Bits, Counts, InsertAll, SameTree;
    hide EntriesOk, Backed, IsEmpty;
    var g := Empty(h, n);
    EmptyGrows(h, n);
    EmptyCounts(h, n);
    EmptyEntries(fast, h, n);
    ghost var ps: seq<Trans> := [];
    var nodes, stack := p.nodes[x], [];
    var i := 0;
    MappedNone(order);
    while i < |nodes|
      invariant 0 <= i <= |nodes| && Grows(g, h, n, Pow2(h), ps) && Mapped(ps, db[..i], order)
      invariant Counts(g, Pow2(h), ps)
      invariant EntriesOk(fast, g) && Backed(fast, stack)
      invariant forall k :: 0 <= k < origin.Length ==> !origin[k]
    {
      var mask, cold := ReadTrans(p.items, nodes[i], mark, order, h, n, origin, db[i]);
      BranchAscends(mask, h, cold);
      MappedMore(ps, db, order, i, Bits(mask) + cold);
      AddTransGrows(g, h, n, ps, mask, cold, nodes[i].count);
      GrowsShaped(g, h, n, Pow2(h), ps);
      AddTransCount(g, h, n, ps, mask, cold, nodes[i].count);
      g, stack := AddFast(g, mask, cold, nodes[i].count, fast, stack);
      ps := ps + [Trans(Bits(mask) + cold, nodes[i].count)];
      i := i + 1;
    }
    assert db[..i] == db;
    root, nodenum, data := LinkAll(g, h, n, ps);
    Reset(fast, stack);
    forall m: nat, y: set<nat> | Below(y, m)
      ensures TreeSup(root, {}, m, y) == MapSup(db, order, y + {m})
    {
      assert PathsSup(ps, m, y) == TreeSup(root, {}, m, y);
      MappedSup(ps, db, order, m, y);
    }
  }

  lemma MappedNone(order: seq<int>)
    ensures Mapped([], [], order)
  {
  }

  lemma MappedMore(ps: seq<Trans>, db: seq<Trans>, order: seq<int>, i: nat, path: seq<nat>)
    requires i < |db| && Mapped(ps, db[..i], order) && Ascending(path) && ToSet(path) == Image(order, db[i].items)
    ensures Mapped(ps + [Trans(path, db[i].weight)], db[..i + 1], order)
  {
    hide Image, ToSet;
  }

  lemma GrowsShaped(g: Growing, h: nat, n: nat, i: nat, ps: seq<Trans>)
    requires Grows(g, h, n, i, ps)
    ensures Shaped(g, h, n) && KidsOk(g, h, n, i)
  {
  }

  /** The loop that links the hot nodes, from the largest mask down; a parent that does not exist yet is
      made on the way. The last increment of new_data_num is the one before the loop. */
  method LinkAll(g0: Growing, h: nat, n: nat, ghost ps: seq<Trans>) returns (root: Forest, nodenum: seq<nat>, data: nat)
    requires Grows(g0, h, n, Pow2(h), ps) && Counts(g0, Pow2(h), ps)
    ensures Trie(root, 0, n) && Sized(root, n, nodenum, data) && SameTree(root, InsertAll(ps))
    ensures forall m, y {:trigger PathsSup(ps, m, y)} :: TreeSup(root, {}, m, y) == PathsSup(ps, m, y)
  {
    hide Grows, Link, Counts, SameTree, InsertAll;
    var g := g0;
    var i: nat := Pow2(h) - 1;
    while i > 0
      invariant i + 1 <= Pow2(h) && Grows(g, h, n, i + 1, ps) && Counts(g, i + 1, ps)
    {
      LinkGrows(g, h, n, ps, i);
      GrowsShaped(g, h, n, i + 1, ps);
      NoSibling(g, h, n, i);
      LinkCount(g, h, n, ps, i);
      g := Link(g, i);
      i := i - 1;
    }
    GrowsShaped(g, h, n, 1, ps);
    RootCounts(g, ps);
    Grown(g, h, n, ps);
    root, nodenum, data := g.kids[0], g.nodenum, g.data + 1;
  }
}
