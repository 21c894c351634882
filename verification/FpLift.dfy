/** Mining a conditional database is mining the sets that end in one item. */
module FpLift {
  import opened FpForest
  import opened FpArray
  import opened FpBuild
  import opened FpScan
  import opened FpReports

  /** The prefix has none of the items below x. */
  predicate Apart(fs: seq<nat>, table: seq<nat>, x: nat) {
    x <= |table| && Distinct(table) && Distinct(fs) && forall i :: 0 <= i < x ==> table[i] !in fs
  }

  ghost predicate SoundDb(r: Report, fs: seq<nat>, table: seq<nat>, x: nat, db: seq<Trans>, threshold: nat) {
    exists z :: FrequentIn(r, fs, table, x, db, threshold, z)
  }

  ghost predicate FrequentIn(
        r: Report, fs: seq<nat>, table: seq<nat>, x: nat, db: seq<Trans>, threshold: nat, z: set<nat>)
  {
    z != {} && Below(z, x) && IsAbout(r, fs, Names(table, z)) && r.support == DbSup(db, z) >= threshold
  }

  ghost predicate ExactDb(out: seq<Report>, fs: seq<nat>, table: seq<nat>, db: seq<Trans>, threshold: nat, z: set<nat>)
  {
    Times(out, ToSet(fs) + Names(table, z)) == if DbSup(db, z) >= threshold then 1 else 0
  }

  /** Every frequent nonempty set of items below x of a database is reported exactly once. */
  ghost predicate CoversDb(out: seq<Report>, fs: seq<nat>, table: seq<nat>, x: nat, db: seq<Trans>, threshold: nat) {
    && (forall k :: 0 <= k < |out| ==> SoundDb(out[k], fs, table, x, db, threshold))
    && (forall z :: z != {} && Below(z, x) ==> ExactDb(out, fs, table, db, threshold, z))
  }

  lemma NamesUnion(table: seq<nat>, y: set<nat>, z: set<nat>)
    ensures Names(table, y + z) == Names(table, y) + Names(table, z)
  {
  }

  lemma NamesOne(table: seq<nat>, x: nat)
    requires x < |table|
    ensures Names(table, {x}) == {table[x]}
  {
    assert x in {x};
  }

  lemma PrefixSet(fs: seq<nat>, table: seq<nat>, x: nat, z: set<nat>)
    requires x < |table|
    ensures ToSet(fs + [table[x]]) + Names(table, z) == ToSet(fs) + Names(table, z + {x})
  {
    ToSetAppend(fs, [table[x]]);
    NamesUnion(table, z, {x});
    NamesOne(table, x);
  }

  /** An item below x is neither in the prefix nor x itself. */
  lemma NewName(fs: seq<nat>, table: seq<nat>, x: nat, z: set<nat>)
    requires Disjoint(fs, table) && x < |table| && z != {} && Below(z, x)
    ensures ToSet(fs + [table[x]]) + Names(table, z) != ToSet(fs + [table[x]])
  {
    var i :| i in z;
    assert table[i] in Names(table, z) && table[i] !in fs + [table[x]];
  }

  lemma LiftSound(r: Report, fs: seq<nat>, t: FpTree, x: nat, db: seq<Trans>, threshold: nat)
    requires Disjoint(fs, t.table) && x < |t.table| && db == Base(t.root, [], x)
    requires SoundDb(r, fs + [t.table[x]], t.table, x, db, threshold)
    ensures SoundAt(r, fs, t, x, threshold)
  {
    hide DbSup, TreeSup, Base;
    var z :| FrequentIn(r, fs + [t.table[x]], t.table, x, db, threshold, z);
    PrefixSet(fs, t.table, x, z);
    BaseSup(t.root, [], x, z);
    assert ToSet([]) == {};
    assert fs <= fs + [t.table[x]];
    assert ReportFor(r, fs, t, x, z, threshold);
  }

  lemma LiftExact(out: seq<Report>, fs: seq<nat>, t: FpTree, x: nat, db: seq<Trans>, threshold: nat, z: set<nat>)
    requires TreeOk(t, threshold) && Disjoint(fs, t.table) && x < |t.table| && db == Base(t.root, [], x)
    requires CoversDb(out, fs + [t.table[x]], t.table, x, db, threshold) && Below(z, x)
    ensures ExactAt([Report(fs + [t.table[x]], t.count[x])] + out, fs, t, x, z, threshold)
  {
    hide DbSup, TreeSup, Base, Names, Sized, Trie;
    var fs' := fs + [t.table[x]];
    var r := Report(fs', t.count[x]);
    var s := ToSet(fs) + Names(t.table, z + {x});
    PrefixSet(fs, t.table, x, z);
    TimesAppend([r], out, s);
    TimesOne(r, s);
    BaseSup(t.root, [], x, z);
    assert ToSet([]) == {};
    if z == {} {
      NoNames(t.table);
      forall k | 0 <= k < |out|
        ensures ToSet(out[k].items) != s
      {
        assert SoundDb(out[k], fs', t.table, x, db, threshold);
        var y :| FrequentIn(out[k], fs', t.table, x, db, threshold, y);
        NewName(fs, t.table, x, y);
      }
      TimesNone(out, s);
    } else {
      NewName(fs, t.table, x, z);
      assert ExactDb(out, fs', t.table, db, threshold, z);
    }
  }

  lemma NoNames(table: seq<nat>)
    ensures Names(table, {}) == {}
  {
  }

  /** The item itself and the sets found in its conditional database are the sets it ends. */
  lemma LiftItem(out: seq<Report>, fs: seq<nat>, t: FpTree, x: nat, db: seq<Trans>, threshold: nat)
    requires TreeOk(t, threshold) && Disjoint(fs, t.table) && x < |t.table| && db == Base(t.root, [], x)
    requires CoversDb(out, fs + [t.table[x]], t.table, x, db, threshold)
    ensures CoversAt([Report(fs + [t.table[x]], t.count[x])] + out, fs, t, x, threshold)
  {
    hide ExactAt, SoundAt, TreeOk, SoundDb, ExactDb, Disjoint, Base;
    TableSize(t, threshold);
    var r := Report(fs + [t.table[x]], t.count[x]);
    var all := [r] + out;
    forall k | 0 <= k < |all|
      ensures SoundAt(all[k], fs, t, x, threshold)
    {
      if k == 0 {
        FirstSound(fs, t, x, threshold);
      } else {
        LiftSound(out[k - 1], fs, t, x, db, threshold);
      }
    }
    forall z | Below(z, x)
      ensures ExactAt(all, fs, t, x, z, threshold)
    {
      LiftExact(out, fs, t, x, db, threshold, z);
    }
  }

  lemma TableSize(t: FpTree, threshold: nat)
    requires TreeOk(t, threshold)
    ensures |t.count| == |t.table|
  {
  }

  lemma FirstSound(fs: seq<nat>, t: FpTree, x: nat, threshold: nat)
    requires TreeOk(t, threshold) && Disjoint(fs, t.table) && x < |t.table|
    ensures SoundAt(Report(fs + [t.table[x]], t.count[x]), fs, t, x, threshold)
  {
    hide Trie, Sized;
    var r := Report(fs + [t.table[x]], t.count[x]);
    PrefixSet(fs, t.table, x, {});
    NoNames(t.table);
    assert ReportFor(r, fs, t, x, {}, threshold);
  }

  /** The new numbers of a set of items. */
  function Numbers(order: seq<int>, z: set<nat>): set<nat> {
    set i | i in z && i < |order| && order[i] >= 0 :: order[i] as nat
  }

  predicate AllFrequent(db: seq<Trans>, x: nat, threshold: nat, z: set<nat>) {
    forall i :: i in z ==> IsFrequent(db, x, threshold, i)
  }

  /** An item that occurs has a positive support. */
  lemma {:induction false} OccursInDb(db: seq<Trans>, x: nat, k: nat, i: nat)
    requires DbOk(db, x) && k < |db| && i in db[k].items
    ensures DbSup(db, {i}) > 0
  {
    DbOne(db, i);
    if k < |db| - 1 {
      OccursInDb(db[..|db| - 1], x, k, i);
    }
  }

  /** The items of one transaction are renumbered without clashes. */
  lemma OrderMaps(
        order: seq<int>, db: seq<Trans>, x: nat, threshold: nat, table: seq<nat>, ntable: seq<nat>, ncount: seq<nat>,
        k: nat)
    requires Ordered(order, db, x, threshold, table, ntable, ncount) && Distinct(table) && DbOk(db, x) && k < |db|
    ensures Maps(order, db[k].items, |ntable|)
    ensures forall j :: 0 <= j < |db[k].items| && order[db[k].items[j]] >= 0 ==>
            IsFrequent(db, x, threshold, db[k].items[j])
  {
    hide Frequent, DbSup, Numbered;
    var items := db[k].items;
    forall j | 0 <= j < |items|
      ensures items[j] < x && (IsFrequent(db, x, threshold, items[j]) || order[items[j]] == -1)
    {
      OccursInDb(db, x, k, items[j]);
    }
  }

  lemma SetMapped(
        order: seq<int>, db: seq<Trans>, x: nat, threshold: nat, table: seq<nat>, ntable: seq<nat>, ncount: seq<nat>,
        k: nat, z: set<nat>)
    requires Ordered(order, db, x, threshold, table, ntable, ncount) && Distinct(table) && DbOk(db, x) && k < |db|
    requires AllFrequent(db, x, threshold, z)
    ensures Numbers(order, z) <= Image(order, db[k].items) <==> z <= ToSet(db[k].items)
  {
    hide Frequent, DbSup, Numbered;
    var items := db[k].items;
    OrderMaps(order, db, x, threshold, table, ntable, ncount, k);
    if Numbers(order, z) <= Image(order, items) {
      forall i | i in z
        ensures i in items
      {
        assert IsFrequent(db, x, threshold, i);
        assert order[i] as nat in Numbers(order, z);
        var j :| 0 <= j < |items| && items[j] < |order| && order[items[j]] == order[i];
        assert IsFrequent(db, x, threshold, items[j]);
        assert table[items[j]] == table[i];
      }
    }
    if z <= ToSet(items) {
      forall v | v in Numbers(order, z)
        ensures v in Image(order, items)
      {
        var i :| i in z && i < |order| && order[i] == v;
        var j :| 0 <= j < |items| && items[j] == i;
      }
    }
  }

  /** Renumbering keeps the weight of every set of frequent items. */
  lemma {:induction false} MapSupIs(
        order: seq<int>, db: seq<Trans>, x: nat, threshold: nat, table: seq<nat>, ntable: seq<nat>, ncount: seq<nat>,
        z: set<nat>, n: nat)
    requires Ordered(order, db, x, threshold, table, ntable, ncount) && Distinct(table) && DbOk(db, x)
    requires AllFrequent(db, x, threshold, z) && n <= |db|
    ensures MapSup(db[..n], order, Numbers(order, z)) == DbSup(db[..n], z)
  {
    hide Ordered, Image, AllFrequent, DbOk, Numbers;
    if n > 0 {
      MapSupIs(order, db, x, threshold, table, ntable, ncount, z, n - 1);
      SetMapped(order, db, x, threshold, table, ntable, ncount, n - 1, z);
      assert db[..n][..n - 1] == db[..n - 1];
    }
  }

  lemma NumbersNames(
        order: seq<int>, db: seq<Trans>, x: nat, threshold: nat, table: seq<nat>, ntable: seq<nat>, ncount: seq<nat>,
        z: set<nat>)
    requires Ordered(order, db, x, threshold, table, ntable, ncount) && AllFrequent(db, x, threshold, z)
    ensures Names(ntable, Numbers(order, z)) == Names(table, z) && Below(Numbers(order, z), |ntable|)
    ensures z != {} ==> Numbers(order, z) != {}
  {
    hide Frequent, DbSup, Numbered;
    forall v | v in Names(table, z)
      ensures v in Names(ntable, Numbers(order, z))
    {
      var i :| i in z && i < |table| && table[i] == v;
      assert IsFrequent(db, x, threshold, i);
      assert order[i] as nat in Numbers(order, z);
    }
    forall v | v in Names(ntable, Numbers(order, z))
      ensures v in Names(table, z)
    {
      var k :| k in Numbers(order, z) && k < |ntable| && ntable[k] == v;
      var i :| i in z && i < |order| && order[i] == k;
      assert IsFrequent(db, x, threshold, i);
    }
    if i :| i in z {
      assert IsFrequent(db, x, threshold, i);
      assert order[i] as nat in Numbers(order, z);
    }
  }

  lemma MaxOf(s: set<nat>) returns (m: nat)
    requires s != {}
    ensures m in s && forall a :: a in s ==> a <= m
    decreases |s|
  {
    var m0 :| m0 in s;
    var rest := s - {m0};
    assert s == rest + {m0};
    m := m0;
    if rest != {} {
      var k := MaxOf(rest);
      m := if k > m0 then k else m0;
    }
  }

  /** The items of a set of new numbers. */
  ghost function Origins(order: seq<int>, db: seq<Trans>, x: nat, threshold: nat, y: set<nat>): (z: set<nat>)
    ensures AllFrequent(db, x, threshold, z) && Below(z, x)
  {
    set i: nat | i < x && i < |order| && IsFrequent(db, x, threshold, i) && order[i] >= 0 && order[i] as nat in y
  }

  lemma OriginsNumbers(
        order: seq<int>, db: seq<Trans>, x: nat, threshold: nat, table: seq<nat>, ntable: seq<nat>, ncount: seq<nat>,
        y: set<nat>)
    requires Ordered(order, db, x, threshold, table, ntable, ncount) && Below(y, |ntable|)
    ensures Numbers(order, Origins(order, db, x, threshold, y)) == y
  {
    hide Frequent, DbSup;
    var z := Origins(order, db, x, threshold, y);
    forall k | k in y
      ensures k in Numbers(order, z)
    {
      assert Numbered(order, db, x, threshold, k);
      var i: nat :| IsFrequent(db, x, threshold, i) && order[i] == k;
      assert i in z;
    }
  }

  /** The tree mined for the database of x. */
  ghost predicate TreeFor(t': FpTree, order: seq<int>, db: seq<Trans>, x: nat, threshold: nat, table: seq<nat>) {
    && Ordered(order, db, x, threshold, table, t'.table, t'.count) && Distinct(table) && DbOk(db, x)
    && Conditional(t'.root, |t'.table|, t'.nodenum, t'.data, db, order)
  }

  /** What the conditional tree says about a set is what the database says. */
  lemma TreeForSup(
        t': FpTree, order: seq<int>, db: seq<Trans>, x: nat, threshold: nat, table: seq<nat>, z: set<nat>, m: nat,
        y: set<nat>)
    requires TreeFor(t', order, db, x, threshold, table) && AllFrequent(db, x, threshold, z)
    requires Below(y, m) && y + {m} == Numbers(order, z)
    ensures TreeSup(t'.root, {}, m, y) == DbSup(db, z) && Names(t'.table, y + {m}) == Names(table, z) && m < |t'.table|
  {
    hide Ordered, Sized, AllFrequent, Names, Numbers, DbOk, Distinct;
    MapSupIs(order, db, x, threshold, table, t'.table, t'.count, z, |db|);
    assert db[..|db|] == db;
    NumbersNames(order, db, x, threshold, table, t'.table, t'.count, z);
    assert m in y + {m};
  }

  lemma ConvertSound(
        r: Report, fs: seq<nat>, t': FpTree, order: seq<int>, db: seq<Trans>, x: nat, threshold: nat, table: seq<nat>)
    requires TreeFor(t', order, db, x, threshold, table) && SoundFrom(r, fs, t', 0, threshold)
    ensures SoundDb(r, fs, table, x, db, threshold)
  {
    hide TreeFor, Names, Numbers, DbOk, Distinct, IsAbout;
    var m :| 0 <= m && SoundAt(r, fs, t', m, threshold);
    var y :| ReportFor(r, fs, t', m, y, threshold);
    var z := Origins(order, db, x, threshold, y + {m});
    TreeForOrder(t', order, db, x, threshold, table);
    OriginsNumbers(order, db, x, threshold, table, t'.table, t'.count, y + {m});
    TreeForSup(t', order, db, x, threshold, table, z, m, y);
    NoNumbers(order);
    assert m in y + {m};
    assert FrequentIn(r, fs, table, x, db, threshold, z);
  }

  lemma NoNumbers(order: seq<int>)
    ensures Numbers(order, {}) == {}
  {
  }

  lemma TreeForOrder(t': FpTree, order: seq<int>, db: seq<Trans>, x: nat, threshold: nat, table: seq<nat>)
    requires TreeFor(t', order, db, x, threshold, table)
    ensures Ordered(order, db, x, threshold, table, t'.table, t'.count) && Distinct(table) && DbOk(db, x)
  {
  }

  /** A set with an item that is not frequent is not frequent, and no report is about it. */
  lemma ConvertRare(
        out: seq<Report>, fs: seq<nat>, t': FpTree, order: seq<int>, db: seq<Trans>, x: nat, threshold: nat,
        table: seq<nat>, z: set<nat>, i: nat)
    requires TreeFor(t', order, db, x, threshold, table) && Apart(fs, table, x)
    requires forall k :: 0 <= k < |out| ==> SoundFrom(out[k], fs, t', 0, threshold)
    requires Below(z, x) && i in z && !IsFrequent(db, x, threshold, i)
    ensures ExactDb(out, fs, table, db, threshold, z)
  {
    hide TreeFor, Times, DbSup, DbOk;
    TreeForOrder(t', order, db, x, threshold, table);
    DbSupMonotone(db, {i}, z);
    var s := ToSet(fs) + Names(table, z);
    assert table[i] in Names(table, z);
    forall k | 0 <= k < |out|
      ensures ToSet(out[k].items) != s
    {
      assert SoundFrom(out[k], fs, t', 0, threshold);
      ConvertSound(out[k], fs, t', order, db, x, threshold, table);
      RareName(out[k], fs, t', order, db, x, threshold, table, i);
    }
    TimesNone(out, s);
  }

  lemma RareName(
        r: Report, fs: seq<nat>, t': FpTree, order: seq<int>, db: seq<Trans>, x: nat, threshold: nat, table: seq<nat>,
        i: nat)
    requires Ordered(order, db, x, threshold, table, t'.table, t'.count) && Apart(fs, table, x)
    requires SoundFrom(r, fs, t', 0, threshold) && i < x && !IsFrequent(db, x, threshold, i)
    ensures table[i] !in ToSet(r.items)
  {
    hide DbSup, Frequent;
    var m :| 0 <= m && SoundAt(r, fs, t', m, threshold);
    var y :| ReportFor(r, fs, t', m, y, threshold);
    forall k: nat | k < |t'.table|
      ensures t'.table[k] != table[i]
    {
      assert Numbered(order, db, x, threshold, k);
      var j: nat :| IsFrequent(db, x, threshold, j) && order[j] == k;
    }
  }

  lemma ConvertExact(
        out: seq<Report>, fs: seq<nat>, t': FpTree, order: seq<int>, db: seq<Trans>, x: nat, threshold: nat,
        table: seq<nat>, z: set<nat>)
    requires TreeFor(t', order, db, x, threshold, table) && Covers(out, fs, t', 0, threshold)
    requires z != {} && AllFrequent(db, x, threshold, z)
    ensures ExactDb(out, fs, table, db, threshold, z)
  {
    hide TreeFor, Names, Numbers, DbOk, Distinct, Ordered;
    TreeForOrder(t', order, db, x, threshold, table);
    NumbersNames(order, db, x, threshold, table, t'.table, t'.count, z);
    var w := Numbers(order, z);
    var m := MaxOf(w);
    var y := w - {m};
    assert y + {m} == w && Below(y, m);
    TreeForSup(t', order, db, x, threshold, table, z, m, y);
    assert ExactAt(out, fs, t', m, y, threshold);
  }

  /** Mining the conditional tree mines the conditional database. */
  lemma LiftTree(
        out: seq<Report>, fs: seq<nat>, t': FpTree, order: seq<int>, db: seq<Trans>, x: nat, threshold: nat,
        table: seq<nat>)
    requires TreeFor(t', order, db, x, threshold, table) && Covers(out, fs, t', 0, threshold)
    requires Apart(fs, table, x)
    ensures CoversDb(out, fs, table, x, db, threshold)
  {
    hide TreeFor, ExactDb, SoundDb, ExactAt, SoundAt, IsFrequent;
    forall k | 0 <= k < |out|
      ensures SoundDb(out[k], fs, table, x, db, threshold)
    {
      ConvertSound(out[k], fs, t', order, db, x, threshold, table);
    }
    forall z | z != {} && Below(z, x)
      ensures ExactDb(out, fs, table, db, threshold, z)
    {
      if i :| i in z && !IsFrequent(db, x, threshold, i) {
        ConvertRare(out, fs, t', order, db, x, threshold, table, z, i);
      } else {
        ConvertExact(out, fs, t', order, db, x, threshold, table, z);
      }
    }
  }
}
