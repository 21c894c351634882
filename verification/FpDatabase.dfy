/** FP_growth in terms of the transactions that a tree stands for. */
module FpDatabase {
  import opened FpForest
  import opened FpArray
  import opened FpBuild
  import opened FpScan
  import opened FpSame
  import opened FpReports
  import opened FpLift
  import opened FpMine
  import opened FpTable
  import opened Chunks

  /** The tree of a database gives every set the weight of the transactions that contain it. */
  lemma {:induction false} InsertAllSup(db: seq<Trans>, n: nat, m: nat, y: set<nat>)
    requires DbOk(db, n) && Below(y, m)
    ensures TreeSup(InsertAll(db), {}, m, y) == DbSup(db, y + {m})
  {
    if db != [] {
      var k := |db| - 1;
      InsertAllSup(db[..k], n, m, y);
      InsertSup(InsertAll(db[..k]), db[k].items, db[k].weight, {}, m, y);
      PathSupIs(db[k].items, db[k].weight, {}, m, y);
      assert y + {m} <= ToSet(db[k].items) <==> m in db[k].items && y <= {} + ToSet(db[k].items);
    }
  }

  lemma {:induction false} InsertAllTrie(db: seq<Trans>, n: nat)
    requires DbOk(db, n)
    ensures Trie(InsertAll(db), 0, n)
  {
    if db != [] {
      var k := |db| - 1;
      InsertAllTrie(db[..k], n);
      InsertTrie(InsertAll(db[..k]), db[k].items, db[k].weight, 0, n);
    }
  }

  /** A report that is right about a set of items of the database. */
  ghost predicate Right(r: Report, table: seq<nat>, db: seq<Trans>, threshold: nat, w: set<nat>) {
    w != {} && Below(w, |table|) && ToSet(r.items) == Names(table, w) && r.support == DbSup(db, w) >= threshold
  }

  /** What Covers says about one set, in terms of the database. */
  lemma MinedOnce(out: seq<Report>, t: FpTree, db: seq<Trans>, threshold: nat, w: set<nat>)
    requires DbOk(db, |t.table|) && t.root == InsertAll(db) && Covers(out, [], t, 0, threshold)
    requires w != {} && Below(w, |t.table|)
    ensures Times(out, Names(t.table, w)) == if DbSup(db, w) >= threshold then 1 else 0
  {
    hide Names, DbSup, TreeSup, Times, InsertAll, DbOk, SoundFrom;
    var m := MaxOf(w);
    var y := w - {m};
    assert y + {m} == w && Below(y, m);
    assert ExactAt(out, [], t, m, y, threshold);
    InsertAllSup(db, |t.table|, m, y);
    NoPrefix(Names(t.table, w));
  }

  lemma NoPrefix(s: set<nat>)
    ensures ToSet([]) + s == s
  {
  }

  lemma MinedRight(r: Report, t: FpTree, db: seq<Trans>, threshold: nat)
    requires DbOk(db, |t.table|) && t.root == InsertAll(db) && SoundFrom(r, [], t, 0, threshold)
    ensures Distinct(r.items) && exists w :: Right(r, t.table, db, threshold, w)
  {
    hide Names, DbSup, TreeSup, InsertAll, DbOk;
    var m :| 0 <= m && SoundAt(r, [], t, m, threshold);
    var y :| ReportFor(r, [], t, m, y, threshold);
    InsertAllSup(db, |t.table|, m, y);
    NoPrefix(Names(t.table, y + {m}));
    assert m in y + {m};
    assert Right(r, t.table, db, threshold, y + {m});
  }

  /** On the tree of a database, FP_growth reports every nonempty set of items whose support reaches the
      threshold once, no other set, and for each the exact support. */
  lemma MinesDatabase(out: seq<Report>, t: FpTree, db: seq<Trans>, threshold: nat)
    requires DbOk(db, |t.table|) && t.root == InsertAll(db) && Covers(out, [], t, 0, threshold)
    ensures forall w :: w != {} && Below(w, |t.table|) ==>
              Times(out, Names(t.table, w)) == if DbSup(db, w) >= threshold then 1 else 0
    ensures forall k :: 0 <= k < |out| ==> Distinct(out[k].items) && exists w ::
            Right(out[k], t.table, db, threshold, w)
  {
    hide Right, Names, DbSup, ExactAt, SoundFrom, Times, InsertAll, DbOk;
    forall w | w != {} && Below(w, |t.table|)
      ensures Times(out, Names(t.table, w)) == if DbSup(db, w) >= threshold then 1 else 0
    {
      MinedOnce(out, t, db, threshold, w);
    }
    forall k | 0 <= k < |out|
      ensures Distinct(out[k].items) && exists w :: Right(out[k], t.table, db, threshold, w)
    {
      MinedRight(out[k], t, db, threshold);
    }
  }

  /** The support of every single item. */
  method CountItems(db: seq<Trans>, items: nat, supp: array<int>)
    requires DbOk(db, items) && items <= supp.Length && forall i :: 0 <= i < supp.Length ==> supp[i] == 0
    modifies supp
    ensures forall i :: 0 <= i < supp.Length ==> supp[i] == DbSup(db, {i})
  {
    for k := 0 to |db|
      invariant forall i :: 0 <= i < supp.Length ==> supp[i] == DbSup(db[..k], {i})
    {
      CountTrans(db[k], supp);
      assert db[..k + 1][..k] == db[..k];
      forall i | 0 <= i < supp.Length
        ensures DbSup(db[..k + 1], {i}) == DbSup(db[..k], {i}) + (if i in db[k].items then db[k].weight else 0)
      {
        DbOne(db[..k + 1], i);
      }
    }
    assert db[..|db|] == db;
  }

  method CountTrans(t: Trans, supp: array<int>)
    requires Ascending(t.items) && forall j :: 0 <= j < |t.items| ==> t.items[j] < supp.Length
    modifies supp
    ensures forall i :: 0 <= i < supp.Length ==> supp[i] == old(supp[i]) + (if i in t.items then t.weight else 0)
  {
    for j := 0 to |t.items|
      invariant forall i :: 0 <= i < supp.Length ==>
                  supp[i] == old(supp[i]) + (if i in t.items[..j] then t.weight else 0)
    {
      assert t.items[..j + 1] == t.items[..j] + [t.items[j]];
      supp[t.items[j]] := supp[t.items[j]] + t.weight;
    }
    assert t.items[..|t.items|] == t.items;
  }

  /** A transaction as a branch: the new numbers of its frequent items, ascending. */
  method Branch(items: seq<nat>, order: seq<int>, n: nat, origin: array<bool>) returns (branch: seq<nat>)
    requires Maps(order, items, n) && n < origin.Length && forall i :: 0 <= i < origin.Length ==> !origin[i]
    modifies origin
    ensures forall i :: 0 <= i < origin.Length ==> !origin[i]
    ensures Ascending(branch) && ToSet(branch) == Image(order, items)
  {
    for j := 0 to |items|
      invariant forall i: nat :: i < origin.Length ==> (origin[i] <==> i in Image(order, items[..j]))
    {
      MapAt(order, items, n, j);
      ImageNext(order, items, j);
      if order[items[j]] >= 0 {
        origin[order[items[j]]] := true;
      }
    }
    assert items[..|items|] == items;
    branch := FillCount(origin, 0, origin.Length - 1);
    ImageBelow(order, items, n);
    forall x: nat
      ensures x in ToSet(branch) <==> x in Image(order, items)
    {
    }
  }

  lemma ImageNext(order: seq<int>, items: seq<nat>, j: nat)
    requires j < |items| && items[j] < |order|
    ensures Image(order, items[..j + 1]) ==
            Image(order, items[..j]) + (if order[items[j]] >= 0 then {order[items[j]] as nat} else {})
  {
    var a, b := items[..j], items[..j + 1];
    assert b == a + [items[j]];
    forall x: nat | x in Image(order, a)
      ensures x in Image(order, b)
    {
      var q :| 0 <= q < |a| && a[q] < |order| && order[a[q]] == x;
      assert b[q] == a[q];
    }
    assert b[j] == items[j];
  }

  /** The branches of all transactions. */
  method Branches(db: seq<Trans>, order: seq<int>, n: nat, origin: array<bool>) returns (ps: seq<Trans>)
    requires forall k :: 0 <= k < |db| ==> Maps(order, db[k].items, n) && db[k].weight > 0
    requires n < origin.Length && forall i :: 0 <= i < origin.Length ==> !origin[i]
    modifies origin
    ensures forall i :: 0 <= i < origin.Length ==> !origin[i]
    ensures Mapped(ps, db, order) && DbOk(ps, n)
  {
    hide Image, Maps;
    ps := [];
    for k := 0 to |db|
      invariant forall i :: 0 <= i < origin.Length ==> !origin[i]
      invariant Mapped(ps, db[..k], order) && DbOk(ps, n)
    {
      var branch := Branch(db[k].items, order, n, origin);
      MappedMore(ps, db, order, k, branch);
      ImageBelow(order, db[k].items, n);
      forall j | 0 <= j < |branch|
        ensures branch[j] < n
      {
        assert branch[j] in ToSet(branch);
      }
      ps := ps + [Trans(branch, db[k].weight)];
    }
    assert db[..|db|] == db;
  }

  /** The tree of the branches is the one that FP_growth needs. */
  lemma {:induction false} FirstTree(db: seq<Trans>, order: seq<int>, ps: seq<Trans>, n: nat)
    requires Mapped(ps, db, order) && DbOk(ps, n)
    ensures var root := InsertAll(ps);
            Conditional(root, n, seq(n, (x: nat) => NodeCount(root, x)), LeafSum(root, 0), db, order)
  {
    hide InsertAll, Image, TreeSup, Mapped, DbOk, Trie, DbSup;
    var root := InsertAll(ps);
    InsertAllTrie(ps, n);
    forall m: nat, y: set<nat> | Below(y, m)
      ensures TreeSup(root, {}, m, y) == MapSup(db, order, y + {m})
    {
      InsertAllPaths(ps, m, y);
      MappedSup(ps, db, order, m, y);
    }
  }

  lemma {:induction false} InsertAllPaths(ps: seq<Trans>, m: nat, y: set<nat>)
    ensures TreeSup(InsertAll(ps), {}, m, y) == FpGrow.PathsSup(ps, m, y)
  {
    if ps != [] {
      var k := |ps| - 1;
      InsertAllPaths(ps[..k], m, y);
      InsertSup(InsertAll(ps[..k]), ps[k].items, ps[k].weight, {}, m, y);
    }
  }

  function Identity(n: nat): (table: seq<nat>)
    ensures |table| == n && forall i :: 0 <= i < n ==> table[i] == i
  {
    seq(n, (i: nat) => i)
  }

  /** What a caller of the program gets: each nonempty set of items whose support reaches the threshold is
      reported once, with its support, and nothing else is. */
  ghost predicate Mines(out: seq<Report>, db: seq<Trans>, items: nat, threshold: nat) {
    && (forall w: set<nat> :: w != {} && Below(w, items) ==> TimesIs(out, db, threshold, w))
    && forall k :: 0 <= k < |out| ==> ReportOk(out[k], db, items, threshold)
  }

  ghost predicate TimesIs(out: seq<Report>, db: seq<Trans>, threshold: nat, w: set<nat>) {
    Times(out, w) == if DbSup(db, w) >= threshold then 1 else 0
  }

  ghost predicate ReportOk(r: Report, db: seq<Trans>, items: nat, threshold: nat) {
    var w := ToSet(r.items);
    Distinct(r.items) && w != {} && Below(w, items) && r.support == DbSup(db, w) >= threshold
  }

  lemma IdentityNames(n: nat, w: set<nat>)
    requires Below(w, n)
    ensures Names(Identity(n + 1), w) == w
  {
    assert forall x :: x in w ==> Identity(n + 1)[x] == x;
  }

  lemma MinesAll(out: seq<Report>, db: seq<Trans>, items: nat, threshold: nat)
    requires CoversDb(out, [], Identity(items + 1), items, db, threshold)
    ensures Mines(out, db, items, threshold)
  {
    hide DbSup, Times, Names;
    forall w: set<nat> | w != {} && Below(w, items)
      ensures TimesIs(out, db, threshold, w)
    {
      assert ExactDb(out, [], Identity(items + 1), db, threshold, w);
      IdentityNames(items, w);
      NoPrefix(w);
    }
    forall k | 0 <= k < |out|
      ensures ReportOk(out[k], db, items, threshold)
    {
      assert SoundDb(out[k], [], Identity(items + 1), items, db, threshold);
      var z :| FrequentIn(out[k], [], Identity(items + 1), items, db, threshold, z);
      IdentityNames(items, z);
      NoPrefix(z);
    }
  }

  /** The whole program on a database: count and number the items, build the tree, mine it. */
  method MineDatabase(db: seq<Trans>, items: nat, threshold: nat) returns (out: seq<Report>)
    requires DbOk(db, items) && threshold >= 1 && items < 0x8000_0000
    ensures Mines(out, db, items, threshold)
  {
    hide Selected, Ordered, Mines, CoversDb, Covers, DbOk, Conditional, Maps, TreeOk, IsEmpty;
    var supp := new int[items + 1](_ => 0);
    var tempOrder := new int[items + 1](_ => 0);
    var origin := new bool[items + 1](_ => false);
    var fast := new Option<nat>[TABLE_SIZE, items + 1]((_, _) => None);
    var table := Identity(items + 1);
    CountItems(db, items, supp);
    var gtable, gcount := Select(table, items, threshold, supp, tempOrder, db);
    var ntable, ncount, order := Scan1(gtable, gcount, table, items, threshold, tempOrder, db);
    var n := |ntable|;
    FewItems(db, items, threshold, order, table, ntable, ncount);
    var ps := Branches(db, order, n, origin);
    FirstTree(db, order, ps, n);
    var root := InsertAll(ps);
    var t := FpTree(root, ntable, ncount, seq(n, (x: nat) => NodeCount(root, x)), LeafSum(root, 0));
    assert TreeFor(t, order, db, items, threshold, table);
    ConditionalOk(t, order, db, items, threshold, table);
    NoneSet(fast);
    out := FpGrowth(t, [], threshold, supp, tempOrder, origin, fast);
    LiftTree(out, [], t, order, db, items, threshold, table);
    MinesAll(out, db, items, threshold);
  }

  lemma NoneSet(fast: array2<Option<nat>>)
    requires forall k, x :: 0 <= k < fast.Length0 && 0 <= x < fast.Length1 ==> fast[k, x] == None
    ensures IsEmpty(fast)
  {
  }

  lemma FewItems(
        db: seq<Trans>, items: nat, threshold: nat, order: seq<int>, table: seq<nat>, ntable: seq<nat>,
        ncount: seq<nat>)
    requires DbOk(db, items) && Distinct(table) && Ordered(order, db, items, threshold, table, ntable, ncount)
    ensures |ntable| <= items && Distinct(ntable)
    ensures forall k :: 0 <= k < |db| ==> Maps(order, db[k].items, |ntable|) && db[k].weight > 0
  {
    hide Ordered, Maps;
    FewNew(db, items, threshold, order, table, ntable, ncount);
    forall k | 0 <= k < |db|
      ensures Maps(order, db[k].items, |ntable|)
    {
      OrderMaps(order, db, items, threshold, table, ntable, ncount, k);
    }
  }

  lemma FewNew(
        db: seq<Trans>, items: nat, threshold: nat, order: seq<int>, table: seq<nat>, ntable: seq<nat>,
        ncount: seq<nat>)
    requires Ordered(order, db, items, threshold, table, ntable, ncount)
    ensures |ntable| <= items && Distinct(ntable)
  {
    FrequentFew(db, items, threshold);
  }
}
