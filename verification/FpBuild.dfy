/** From one tree to the conditional tree of an item: the conditional pattern base, the new order of
    the items, and the new tree. */
module FpBuild {
  import opened FpForest
  import opened FpArray
  import opened FpMasks
  import opened FpGrow
  import FpSort

  const HOT_ITEM_NUM1: nat := 6

  /** A conditional database on item x: ascending transactions below x with weights. */
  predicate DbOk(db: seq<Trans>, x: nat) {
    forall k :: 0 <= k < |db| ==>
      Ascending(db[k].items) && db[k].weight > 0 && forall j :: 0 <= j < |db[k].items| ==> db[k].items[j] < x
  }

  lemma {:induction false} BaseDbOk(f: Forest, anc: seq<nat>, lo: nat, n: nat, x: nat)
    requires Trie(f, lo, n) && Ascending(anc) && forall j :: 0 <= j < |anc| ==> anc[j] < lo
    ensures DbOk(Base(f, anc, x), x)
  {
    match f {
      case Nil =>
      case Node(i, c, ch, sb) =>
        BaseDbOk(ch, anc + [i], i + 1, n, x);
        BaseDbOk(sb, anc, lo, n, x);
    }
  }

  lemma DbOne(db: seq<Trans>, i: nat)
    requires db != []
    ensures DbSup(db, {i}) == DbSup(db[..|db| - 1], {i}) + (if i in db[|db| - 1].items then db[|db| - 1].weight else 0)
  {
    assert {i} <= ToSet(db[|db| - 1].items) <==> i in db[|db| - 1].items;
  }

  /** The inner loop of the conditional pattern base: one node's items, up to the mark. */
  method CountEntry(items: seq<nat>, e: Entry, mark: nat, supp: array<int>, ghost t: Trans) returns (j: nat)
    requires EntryOk(items, e, t, mark) && Ascending(t.items)
    requires forall i :: 0 <= i < |t.items| ==> t.items[i] < supp.Length
    modifies supp
    ensures j == |t.items|
    ensures forall i :: 0 <= i < supp.Length ==> supp[i] == old(supp[i]) + (if i in t.items then e.count else 0)
  {
    j := 0;
    ghost var n := |t.items|;
    while items[e.begin + j] != mark
      invariant 0 <= j <= n
      invariant forall i :: 0 <= i < supp.Length ==>
                supp[i] == old(supp[i]) + (if i in t.items[n - j..] then e.count else 0)
      decreases n - j
    {
      var item := items[e.begin + j];
      assert item == t.items[n - 1 - j];
      assert t.items[n - 1 - j..] == [item] + t.items[n - j..];
      assert item !in t.items[n - j..];
      supp[item] := supp[item] + e.count;
      j := j + 1;
    }
    assert t.items[0..] == t.items;
  }

  /** The items below k that are frequent in the database, ascending. */
  function Frequent(db: seq<Trans>, k: nat, threshold: nat): seq<nat> {
    if k == 0 then []
    else Frequent(db, k - 1, threshold) + (if DbSup(db, {k - 1}) >= threshold then [k - 1] else [])
  }

  lemma {:induction false} FrequentIs(db: seq<Trans>, k: nat, threshold: nat)
    ensures Ascending(Frequent(db, k, threshold))
    ensures forall i: nat :: i in Frequent(db, k, threshold) <==> i < k && DbSup(db, {i}) >= threshold
  {
    if k > 0 {
      var fr := Frequent(db, k - 1, threshold);
      FrequentIs(db, k - 1, threshold);
      forall a, b | 0 <= a < b < |Frequent(db, k, threshold)|
        ensures Frequent(db, k, threshold)[a] < Frequent(db, k, threshold)[b]
      {
        assert fr[a] in fr;
      }
    }
  }

  predicate Distinct(s: seq<nat>) {
    forall i, j :: 0 <= i < j < |s| ==> s[i] != s[j]
  }

  /** FPArray_conditional_pattern_base: the frequent items of the database conditional on x, with
      their supports. Items that are not frequent are noted as such in tempOrder. */
  method ConditionalPatternBase(p: Packed, table: seq<nat>, x: nat, mark: nat, threshold: nat,
                                supp: array<int>, tempOrder: array<int>, ghost db: seq<Trans>)
    returns (gtable: seq<nat>, gcount: seq<nat>, sumItemNum: nat)
    requires x < |p.nodes| == |table| && ItemOk(p.items, p.nodes[x], db, -1, mark) && DbOk(db, x)
    requires Distinct(table) && forall i :: 0 <= i < |table| ==> table[i] < tempOrder.Length
    requires supp != tempOrder && x <= supp.Length && forall i :: 0 <= i < supp.Length ==> supp[i] == 0
    modifies supp, tempOrder
    ensures forall i :: 0 <= i < supp.Length ==> supp[i] == 0
    ensures Selected(db, x, threshold, table, gtable, gcount)
    ensures forall i :: 0 <= i < x && 0 < DbSup(db, {i}) < threshold ==> tempOrder[table[i]] == -1
  {
    sumItemNum := 0;
    var nodes := p.nodes[x];
    var i := 0;
    while i < |nodes|
      invariant 0 <= i <= |nodes|
      invariant forall k :: 0 <= k < supp.Length ==> supp[k] == DbSup(db[..i], {k})
    {
      assert EntryOk(p.items, nodes[i], db[i], mark);
      var j := CountEntry(p.items, nodes[i], mark, supp, db[i]);
      forall k | 0 <= k < supp.Length
        ensures supp[k] == DbSup(db[..i + 1], {k})
      {
        assert db[..i + 1][..i] == db[..i];
        DbOne(db[..i + 1], k);
      }
      sumItemNum := sumItemNum + j;
      i := i + 1;
    }
    assert db[..i] == db;
    gtable, gcount := Select(table, x, threshold, supp, tempOrder, db);
  }

  method Select(table: seq<nat>, x: nat, threshold: nat, supp: array<int>, tempOrder: array<int>, ghost db: seq<Trans>)
    returns (gtable: seq<nat>, gcount: seq<nat>)
    requires x < |table| && DbOk(db, x)
    requires Distinct(table) && forall i :: 0 <= i < |table| ==> table[i] < tempOrder.Length
    requires supp != tempOrder && x <= supp.Length && forall i :: 0 <= i < supp.Length ==> supp[i] == DbSup(db, {i})
    modifies supp, tempOrder
    ensures forall i :: 0 <= i < supp.Length ==> supp[i] == 0
    ensures Selected(db, x, threshold, table, gtable, gcount)
    ensures forall i :: 0 <= i < x && 0 < DbSup(db, {i}) < threshold ==> tempOrder[table[i]] == -1
  {
    gtable, gcount := [], [];
    var i := 0;
    while i < x
      invariant 0 <= i <= x
      invariant forall k :: 0 <= k < supp.Length ==> supp[k] == if k < i then 0 else DbSup(db, {k})
      invariant var fr := Frequent(db, i, threshold);
                && |gtable| == |gcount| == |fr|
                && forall k :: 0 <= k < |fr| ==>
                     fr[k] < i && gtable[k] == table[fr[k]] && gcount[k] == DbSup(db, {fr[k]})
      invariant forall k :: 0 <= k < i && 0 < DbSup(db, {k}) < threshold ==> tempOrder[table[k]] == -1
    {
      if supp[i] >= threshold {
        gtable := gtable + [table[i]];
        gcount := gcount + [supp[i]];
      } else if supp[i] > 0 {
        tempOrder[table[i]] := -1;
      }
      supp[i] := 0;
      i := i + 1;
    }
    forall k | x <= k < supp.Length
      ensures DbSup(db, {k}) == 0
    {
      NotBelow(db, x, k);
    }
  }

  lemma {:induction false} NotBelow(db: seq<Trans>, x: nat, k: nat)
    requires DbOk(db, x) && k >= x
    ensures DbSup(db, {k}) == 0
  {
    if db != [] {
      DbOne(db, k);
      NotBelow(db[..|db| - 1], x, k);
    }
  }

  predicate IsFrequent(db: seq<Trans>, x: nat, threshold: nat, i: nat) {
    i < x && DbSup(db, {i}) >= threshold
  }

  /** Some frequent item has the new number k. */
  ghost predicate Numbered(order: seq<int>, db: seq<Trans>, x: nat, threshold: nat, k: nat)
    requires |order| == x
  {
    exists i: nat :: IsFrequent(db, x, threshold, i) && order[i] == k
  }

  /** What scan1 establishes: the new table lists the frequent items by descending support, and order
      maps an old item to its new number, or to -1 if it occurs but is not frequent. */
  ghost predicate Ordered(order: seq<int>, db: seq<Trans>, x: nat, threshold: nat, table: seq<nat>,
                          ntable: seq<nat>, ncount: seq<nat>)
  {
    && |order| == x <= |table| && |ntable| == |ncount| == |Frequent(db, x, threshold)| && Distinct(ntable)
    && (forall i: nat :: IsFrequent(db, x, threshold, i) ==>
          0 <= order[i] < |ntable| && ntable[order[i]] == table[i] && ncount[order[i]] == DbSup(db, {i}))
    && (forall i: nat :: i < x && 0 < DbSup(db, {i}) < threshold ==> order[i] == -1)
    && (forall k: nat :: k < |ntable| ==> Numbered(order, db, x, threshold, k))
    && (forall j, k :: 0 <= j < k < |ncount| ==> ncount[j] >= ncount[k])
  }

  lemma TwiceIn(z: seq<FpSort.Pair>, a: nat, b: nat)
    requires a < b < |z| && z[a] == z[b]
    ensures multiset(z)[z[a]] >= 2
  {
    assert z == z[..a] + [z[a]] + z[a + 1..b] + [z[b]] + z[b + 1..];
  }

  lemma OnceIn(z: seq<FpSort.Pair>, i: nat)
    requires i < |z| && forall j, k :: 0 <= j < k < |z| ==> z[j].tag != z[k].tag
    ensures multiset(z)[z[i]] == 1
  {
    assert z == z[..i] + [z[i]] + z[i + 1..];
    assert z[i] !in z[..i] && z[i] !in z[i + 1..];
  }

  predicate DistinctTags(z: seq<FpSort.Pair>) {
    forall i, j :: 0 <= i < j < |z| ==> z[i].tag != z[j].tag
  }

  /** Equal multisets of pairs with distinct tags: the tags are distinct again. */
  lemma DistinctAgain(z: seq<FpSort.Pair>, z': seq<FpSort.Pair>)
    requires multiset(z) == multiset(z') && DistinctTags(z)
    ensures DistinctTags(z')
  {
    forall a, b | 0 <= a < b < |z'|
      ensures z'[a].tag != z'[b].tag
    {
      InBoth(z', z, a);
      InBoth(z', z, b);
      var i :| 0 <= i < |z| && z[i] == z'[a];
      OnceIn(z, i);
      if z'[a] == z'[b] {
        TwiceIn(z', a, b);
      }
    }
  }

  lemma InBoth(z: seq<FpSort.Pair>, z': seq<FpSort.Pair>, k: nat)
    requires multiset(z) == multiset(z') && k < |z|
    ensures z[k] in z'
  {
    assert z[k] in multiset(z);
    assert z[k] in multiset(z');
  }

  function AsInts(s: seq<nat>): (r: seq<int>)
    ensures |r| == |s| && forall k :: 0 <= k < |s| ==> r[k] == s[k]
  {
    seq(|s|, (k: nat) requires k < |s| => s[k])
  }

  function AsNats(s: seq<int>): (r: seq<nat>)
    requires forall k :: 0 <= k < |s| ==> s[k] >= 0
    ensures |r| == |s| && forall k :: 0 <= k < |s| ==> r[k] == s[k]
  {
    seq(|s|, (k: nat) requires k < |s| => s[k])
  }

  predicate InHeader(table: seq<nat>, count: seq<nat>, tag: nat, c: nat)
    requires |table| == |count|
  {
    exists j :: 0 <= j < |table| && table[j] == tag && count[j] == c
  }

  /** The pairs of a new header are those of the old one, in some other order. */
  ghost predicate SameHeader(gtable: seq<nat>, gcount: seq<nat>, ntable: seq<nat>, ncount: seq<nat>) {
    && |gtable| == |gcount| == |ntable| == |ncount|
    && (forall k :: 0 <= k < |ntable| ==> InHeader(gtable, gcount, ntable[k], ncount[k]))
    && (forall j :: 0 <= j < |gtable| ==> InHeader(ntable, ncount, gtable[j], gcount[j]))
  }

  lemma SameMultiset(gtable: seq<nat>, gcount: seq<nat>, t: seq<int>, c: seq<int>)
    requires |gtable| == |gcount| == |t| == |c| && Distinct(gtable)
    requires multiset(FpSort.Zip(AsInts(gcount), AsInts(gtable))) == multiset(FpSort.Zip(c, t))
    ensures forall k :: 0 <= k < |t| ==> t[k] >= 0 && c[k] >= 0
    ensures Distinct(AsNats(t)) && SameHeader(gtable, gcount, AsNats(t), AsNats(c))
  {
    var z, z' := FpSort.Zip(AsInts(gcount), AsInts(gtable)), FpSort.Zip(c, t);
    DistinctAgain(z, z');
    forall k | 0 <= k < |t|
      ensures t[k] >= 0 && c[k] >= 0 && InHeader(gtable, gcount, t[k], c[k])
    {
      InBoth(z', z, k);
      var j :| 0 <= j < |z| && z[j] == z'[k];
      assert gtable[j] == t[k] && gcount[j] == c[k];
    }
    var t', c' := AsNats(t), AsNats(c);
    forall j | 0 <= j < |t|
      ensures InHeader(t', c', gtable[j], gcount[j])
    {
      InBoth(z, z', j);
      var k :| 0 <= k < |z'| && z'[k] == z[j];
      assert t'[k] == gtable[j] && c'[k] == gcount[j];
    }
    forall a, b | 0 <= a < b < |t|
      ensures t[a] != t[b]
    {
      assert z'[a].tag != z'[b].tag;
    }
  }

  /** Sorting the header: the same pairs by descending count. */
  method SortHeader(gtable: seq<nat>, gcount: seq<nat>) returns (ntable: seq<nat>, ncount: seq<nat>)
    requires |gtable| == |gcount| && Distinct(gtable)
    ensures Distinct(ntable) && SameHeader(gtable, gcount, ntable, ncount)
    ensures forall j, k :: 0 <= j < k < |ncount| ==> ncount[j] >= ncount[k]
  {
    hide SameHeader;
    var n := |gtable|;
    var count := new int[n](k requires 0 <= k < n => gcount[k]);
    var table := new int[n](k requires 0 <= k < n => gtable[k]);
    assert count[..] == AsInts(gcount) && table[..] == AsInts(gtable);
    ghost var z := FpSort.Pairs(count, table);
    FpSort.Sort(count, table, 0, n - 1);
    ghost var z' := FpSort.Pairs(count, table);
    assert z[0..n] == z && z'[0..n] == z';
    SameMultiset(gtable, gcount, table[..], count[..]);
    ntable, ncount := AsNats(table[..]), AsNats(count[..]);
  }

  /** scan1_DB: sort the frequent items by descending support and number them in that order. */
  method Scan1(
        gtable: seq<nat>, gcount: seq<nat>, table: seq<nat>, x: nat, threshold: nat, tempOrder: array<int>,
        ghost db: seq<Trans>)
    returns (ntable: seq<nat>, ncount: seq<nat>, order: seq<int>)
    requires x <= |table| && Distinct(table) && forall i :: 0 <= i < |table| ==> table[i] < tempOrder.Length
    requires Selected(db, x, threshold, table, gtable, gcount)
    requires forall i :: 0 <= i < x && 0 < DbSup(db, {i}) < threshold ==> tempOrder[table[i]] == -1
    modifies tempOrder
    ensures Ordered(order, db, x, threshold, table, ntable, ncount)
    ensures forall k :: 0 <= k < |ntable| ==> ntable[k] < tempOrder.Length && tempOrder[ntable[k]] == k
  {
    hide SameHeader, HeaderOf, Frequent;
    SelectedOrigin(db, x, threshold, table, gtable, gcount);
    ntable, ncount := SortHeader(gtable, gcount);
    HeaderOrigin(db, x, threshold, table, gtable, gcount, ntable, ncount);
    NewItems(db, x, threshold, table, ntable, ncount, tempOrder.Length);
    NumberItems(ntable, tempOrder);
    order := [];
    var i := 0;
    while i < x
      invariant 0 <= i <= x && |order| == i
      invariant forall k :: 0 <= k < i ==> order[k] == tempOrder[table[k]]
    {
      order := order + [tempOrder[table[i]]];
      i := i + 1;
    }
    OrderedBy(order, db, x, threshold, table, ntable, ncount);
  }

  ghost predicate HasOrigin(db: seq<Trans>, x: nat, threshold: nat, table: seq<nat>, tag: nat, c: nat)
    requires x <= |table|
  {
    exists i: nat :: IsFrequent(db, x, threshold, i) && table[i] == tag && DbSup(db, {i}) == c
  }

  /** The new table holds exactly the frequent items. */
  ghost predicate HeaderOf(db: seq<Trans>, x: nat, threshold: nat, table: seq<nat>, ntable: seq<nat>, ncount: seq<nat>)
    requires x <= |table|
  {
    && |ntable| == |ncount| == |Frequent(db, x, threshold)|
    && (forall k :: 0 <= k < |ntable| ==> HasOrigin(db, x, threshold, table, ntable[k], ncount[k]))
    && (forall i: nat :: IsFrequent(db, x, threshold, i) ==> InHeader(ntable, ncount, table[i], DbSup(db, {i})))
  }

  /** The arrays that the conditional pattern base leaves behind. */
  ghost predicate Selected(db: seq<Trans>, x: nat, threshold: nat, table: seq<nat>, gtable: seq<nat>, gcount: seq<nat>)
    requires x <= |table|
  {
    var fr := Frequent(db, x, threshold);
    && |gtable| == |gcount| == |fr|
    && forall k :: 0 <= k < |fr| ==> fr[k] < x && gtable[k] == table[fr[k]] && gcount[k] == DbSup(db, {fr[k]})
  }

  lemma SelectedOrigin(db: seq<Trans>, x: nat, threshold: nat, table: seq<nat>, gtable: seq<nat>, gcount: seq<nat>)
    requires x <= |table| && Selected(db, x, threshold, table, gtable, gcount)
    ensures forall k :: 0 <= k < |gtable| ==> HasOrigin(db, x, threshold, table, gtable[k], gcount[k])
    ensures forall i: nat :: IsFrequent(db, x, threshold, i) ==> InHeader(gtable, gcount, table[i], DbSup(db, {i}))
    ensures Distinct(table) ==> Distinct(gtable)
  {
    var fr := Frequent(db, x, threshold);
    FrequentIs(db, x, threshold);
    forall k | 0 <= k < |gtable|
      ensures HasOrigin(db, x, threshold, table, gtable[k], gcount[k])
    {
      assert fr[k] in fr;
      assert IsFrequent(db, x, threshold, fr[k]);
    }
    forall i: nat | IsFrequent(db, x, threshold, i)
      ensures InHeader(gtable, gcount, table[i], DbSup(db, {i}))
    {
      assert i in fr;
      var j :| 0 <= j < |fr| && fr[j] == i;
      assert gtable[j] == table[i] && gcount[j] == DbSup(db, {i});
    }
  }

  lemma HeaderOrigin(db: seq<Trans>, x: nat, threshold: nat, table: seq<nat>, gtable: seq<nat>, gcount: seq<nat>,
                     ntable: seq<nat>, ncount: seq<nat>)
    requires x <= |table| && SameHeader(gtable, gcount, ntable, ncount)
    requires Selected(db, x, threshold, table, gtable, gcount)
    ensures HeaderOf(db, x, threshold, table, ntable, ncount)
  {
    hide Frequent;
    SelectedOrigin(db, x, threshold, table, gtable, gcount);
    forall k | 0 <= k < |ntable|
      ensures HasOrigin(db, x, threshold, table, ntable[k], ncount[k])
    {
      assert InHeader(gtable, gcount, ntable[k], ncount[k]);
    }
    forall i: nat | IsFrequent(db, x, threshold, i)
      ensures InHeader(ntable, ncount, table[i], DbSup(db, {i}))
    {
      var j :| 0 <= j < |gtable| && gtable[j] == table[i] && gcount[j] == DbSup(db, {i});
      assert InHeader(ntable, ncount, gtable[j], gcount[j]);
    }
  }

  /** The items of the new table are items of the old one, and none that is not frequent. */
  lemma NewItems(
        db: seq<Trans>, x: nat, threshold: nat, table: seq<nat>, ntable: seq<nat>, ncount: seq<nat>, bound: nat)
    requires x <= |table| && Distinct(table) && HeaderOf(db, x, threshold, table, ntable, ncount)
    requires forall i :: 0 <= i < |table| ==> table[i] < bound
    ensures forall k :: 0 <= k < |ntable| ==> ntable[k] < bound
    ensures forall i: nat :: i < x && !IsFrequent(db, x, threshold, i) ==> table[i] !in ntable
  {
    hide Frequent;
    forall k | 0 <= k < |ntable|
      ensures ntable[k] < bound && forall i: nat :: i < x && !IsFrequent(db, x, threshold, i) ==> table[i] != ntable[k]
    {
      assert HasOrigin(db, x, threshold, table, ntable[k], ncount[k]);
      var j: nat :| IsFrequent(db, x, threshold, j) && table[j] == ntable[k] && DbSup(db, {j}) == ncount[k];
    }
  }

  lemma OrderedBy(
        order: seq<int>, db: seq<Trans>, x: nat, threshold: nat, table: seq<nat>, ntable: seq<nat>, ncount: seq<nat>)
    requires |order| == x <= |table| && Distinct(ntable) && HeaderOf(db, x, threshold, table, ntable, ncount)
    requires forall j, k :: 0 <= j < k < |ncount| ==> ncount[j] >= ncount[k]
    requires forall i: nat, k: nat :: i < x && k < |ntable| && table[i] == ntable[k] ==> order[i] == k
    requires forall i: nat :: i < x && 0 < DbSup(db, {i}) < threshold ==> order[i] == -1
    ensures Ordered(order, db, x, threshold, table, ntable, ncount)
  {
    forall i: nat | IsFrequent(db, x, threshold, i)
      ensures 0 <= order[i] < |ntable| && ntable[order[i]] == table[i] && ncount[order[i]] == DbSup(db, {i})
    {
      assert InHeader(ntable, ncount, table[i], DbSup(db, {i}));
    }
    forall k: nat | k < |ntable|
      ensures Numbered(order, db, x, threshold, k)
    {
      assert HasOrigin(db, x, threshold, table, ntable[k], ncount[k]);
      var i: nat :| IsFrequent(db, x, threshold, i) && table[i] == ntable[k] && DbSup(db, {i}) == ncount[k];
      assert order[i] == k;
    }
  }

  method NumberItems(ntable: seq<nat>, tempOrder: array<int>)
    requires Distinct(ntable) && forall k :: 0 <= k < |ntable| ==> ntable[k] < tempOrder.Length
    modifies tempOrder
    ensures forall k :: 0 <= k < |ntable| ==> tempOrder[ntable[k]] == k
    ensures forall v: nat :: v < tempOrder.Length && v !in ntable ==> tempOrder[v] == old(tempOrder[v])
  {
    var i := 0;
    while i < |ntable|
      invariant 0 <= i <= |ntable|
      invariant forall k :: 0 <= k < i ==> tempOrder[ntable[k]] == k
      invariant forall v: nat :: v < tempOrder.Length && v !in ntable ==> tempOrder[v] == old(tempOrder[v])
    {
      tempOrder[ntable[i]] := i;
      i := i + 1;
    }
  }
}
