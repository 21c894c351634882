/** FP_growth: the recursive miner with its short cuts. */
module FpMine {
  import opened FpForest
  import opened FpArray
  import opened FpBuild
  import opened FpMasks
  import opened FpScan
  import opened FpReports
  import opened FpLift
  import opened FpTable
  import opened Chunks

  /** Single_path: no node on the leftmost branch has a sibling. */
  predicate SinglePath(f: Forest) {
    f.Node? ==> f.sib == Nil && SinglePath(f.child)
  }

  /** An item that has weight in a tree occurs in it. */
  lemma {:induction false} WeightBelow(f: Forest, anc: set<nat>, lo: nat, n: nat, x: nat)
    requires Trie(f, lo, n) && TreeSup(f, anc, x, {}) > 0
    ensures f.Node? && x >= lo
  {
    if f.Node? {
      if TreeSup(f.child, anc + {f.item}, x, {}) > 0 {
        WeightBelow(f.child, anc + {f.item}, f.item + 1, n, x);
      } else if TreeSup(f.sib, anc, x, {}) > 0 {
        WeightBelow(f.sib, anc, lo, n, x);
      }
    }
  }

  /** A single branch in which every item occurs holds all items in order: the support of a set is the
      count of its last item. */
  lemma {:induction false} SinglePathSup(f: Forest, anc: set<nat>, lo: nat, n: nat, x: nat, z: set<nat>)
    requires Trie(f, lo, n) && SinglePath(f) && lo <= x < n && Below(z, x)
    requires forall y: nat :: lo <= y < n ==> TreeSup(f, anc, y, {}) > 0
    requires forall i: nat :: i < lo ==> i in anc
    ensures TreeSup(f, anc, x, z) == TreeSup(f, anc, x, {})
    decreases f
  {
    PathBegins(f, anc, lo, n);
    if x == lo {
      assert z <= anc;
      NotBelowItem(f.child, anc + {lo}, lo + 1, n, lo, z);
      NotBelowItem(f.child, anc + {lo}, lo + 1, n, lo, {});
    } else {
      SinglePathSup(f.child, anc + {lo}, lo + 1, n, x, z);
    }
  }

  lemma {:induction false} NotBelowItem(f: Forest, anc: set<nat>, lo: nat, n: nat, x: nat, z: set<nat>)
    requires Trie(f, lo, n) && x < lo
    ensures TreeSup(f, anc, x, z) == 0
  {
    match f {
      case Nil =>
      case Node(i, _, ch, sb) =>
        NotBelowItem(ch, anc + {i}, i + 1, n, x, z);
        NotBelowItem(sb, anc, lo, n, x, z);
    }
  }

  /** The items on the leftmost branch. */
  function PathItems(f: Forest): seq<nat> {
    if f == Nil then [] else [f.item] + PathItems(f.child)
  }

  lemma {:induction false} PathIsFull(f: Forest, anc: set<nat>, lo: nat, n: nat)
    requires Trie(f, lo, n) && SinglePath(f) && lo <= n
    requires forall y: nat :: lo <= y < n ==> TreeSup(f, anc, y, {}) > 0
    ensures |PathItems(f)| == n - lo && forall k :: 0 <= k < n - lo ==> PathItems(f)[k] == lo + k
    decreases f
  {
    if lo < n {
      PathBegins(f, anc, lo, n);
      PathIsFull(f.child, anc + {lo}, lo + 1, n);
    }
  }

  /** The first node of such a branch has the first item, and the rest of the branch has the others. */
  lemma PathBegins(f: Forest, anc: set<nat>, lo: nat, n: nat)
    requires Trie(f, lo, n) && SinglePath(f) && lo < n
    requires forall y: nat :: lo <= y < n ==> TreeSup(f, anc, y, {}) > 0
    ensures f.Node? && f.item == lo
    ensures forall y: nat :: lo + 1 <= y < n ==> TreeSup(f.child, anc + {lo}, y, {}) > 0
  {
    WeightBelow(f, anc, lo, n, lo);
    if f.item != lo && TreeSup(f.child, anc + {f.item}, lo, {}) > 0 {
      WeightBelow(f.child, anc + {f.item}, f.item + 1, n, lo);
    }
    forall y: nat | lo + 1 <= y < n
      ensures TreeSup(f.child, anc + {lo}, y, {}) > 0
    {
      assert TreeSup(f, anc, y, {}) > 0;
      assert TreeSup(f, anc, y, {}) == TreeSup(f.child, anc + {lo}, y, {}) + TreeSup(Nil, anc, y, {});
    }
  }

  /** The branch of a conditional tree that is a single path lists its whole table. */
  lemma PathHasAll(t: FpTree, threshold: nat)
    requires TreeOk(t, threshold) && threshold >= 1 && SinglePath(t.root)
    ensures forall k :: 0 <= k < |PathItems(t.root)| ==> PathItems(t.root)[k] < |t.table|
    ensures Pick(t.table, PathItems(t.root)) == t.table
  {
    PathIsFull(t.root, {}, 0, |t.table|);
  }

  /** A set that powerset reports: what was chosen so far and some of the items from c on; m is its
      last item. */
  predicate Chosen(w: set<nat>, p: set<nat>, c: nat, n: nat, m: nat) {
    && p <= w && m in w && (forall i :: i in w ==> i <= m < n)
    && forall i :: i in w ==> i in p || i >= c
  }

  ghost predicate PowerReport(r: Report, fs: seq<nat>, table: seq<nat>, count: seq<nat>, p: set<nat>, c: nat) {
    exists w, m: nat :: m < |count| && Chosen(w, p, c, |table|, m) && IsAbout(r, fs, Names(table, w)) &&
        r.support == count[m]
  }

  ghost predicate PowerOnce(out: seq<Report>, fs: seq<nat>, table: seq<nat>, w: set<nat>) {
    Times(out, ToSet(fs) + Names(table, w)) == 1
  }

  /** Every nonempty choice is reported once, with the count of its last item. */
  ghost predicate Power(out: seq<Report>, fs: seq<nat>, table: seq<nat>, count: seq<nat>, p: set<nat>, c: nat) {
    && (forall k :: 0 <= k < |out| ==> PowerReport(out[k], fs, table, count, p, c))
    && (forall w, m: nat {:trigger Chosen(w, p, c, |table|, m)} :: Chosen(w, p, c, |table|, m) ==>
         PowerOnce(out, fs, table, w))
  }

  function Pick(table: seq<nat>, prefix: seq<nat>): (r: seq<nat>)
    requires forall k :: 0 <= k < |prefix| ==> prefix[k] < |table|
    ensures |r| == |prefix| && forall k :: 0 <= k < |r| ==> r[k] == table[prefix[k]]
  {
    seq(|prefix|, (k: nat) requires k < |prefix| => table[prefix[k]])
  }

  lemma PickSet(table: seq<nat>, prefix: seq<nat>)
    requires forall k :: 0 <= k < |prefix| ==> prefix[k] < |table|
    ensures ToSet(Pick(table, prefix)) == Names(table, ToSet(prefix))
  {
    forall v | v in Names(table, ToSet(prefix))
      ensures v in Pick(table, prefix)
    {
      var i :| i in ToSet(prefix) && i < |table| && table[i] == v;
      var k :| 0 <= k < |prefix| && prefix[k] == i;
      assert Pick(table, prefix)[k] == v;
    }
  }

  /** The two halves of the power set: without item c and with it. */
  lemma PowerSplit(a: seq<Report>, b: seq<Report>, fs: seq<nat>, table: seq<nat>, count: seq<nat>, p: set<nat>, c: nat)
    requires Disjoint(fs, table) && |count| == |table| && c < |table| && Below(p, c)
    requires Power(a, fs, table, count, p, c + 1) && Power(b, fs, table, count, p + {c}, c + 1)
    ensures Power(a + b, fs, table, count, p, c)
  {
    hide PowerReport, PowerOnce, Chosen, Disjoint, Below;
    forall k | 0 <= k < |a + b|
      ensures PowerReport((a + b)[k], fs, table, count, p, c)
    {
      if k < |a| {
        assert PowerReport(a[k], fs, table, count, p, c + 1);
        WiderA(a[k], fs, table, count, p, c);
      } else {
        assert PowerReport(b[k - |a|], fs, table, count, p + {c}, c + 1);
        WiderB(b[k - |a|], fs, table, count, p, c);
      }
    }
    forall w, m: nat | Chosen(w, p, c, |table|, m)
      ensures PowerOnce(a + b, fs, table, w)
    {
      SplitOnce(a, b, fs, table, count, p, c, w, m);
    }
  }

  lemma SplitOnce(
        a: seq<Report>, b: seq<Report>, fs: seq<nat>, table: seq<nat>, count: seq<nat>, p: set<nat>, c: nat,
        w: set<nat>, m: nat)
    requires Disjoint(fs, table) && |count| == |table| && c < |table| && Below(p, c)
    requires Power(a, fs, table, count, p, c + 1) && Power(b, fs, table, count, p + {c}, c + 1)
    requires Chosen(w, p, c, |table|, m)
    ensures PowerOnce(a + b, fs, table, w)
  {
    hide PowerReport, Disjoint, Names, Times;
    TimesAppend(a, b, ToSet(fs) + Names(table, w));
    if c in w {
      assert Chosen(w, p + {c}, c + 1, |table|, m);
      assert PowerOnce(b, fs, table, w);
      NotIn(a, fs, table, count, p, c, w, false);
    } else {
      assert Chosen(w, p, c + 1, |table|, m);
      assert PowerOnce(a, fs, table, w);
      NotIn(b, fs, table, count, p, c, w, true);
    }
  }

  lemma WiderA(r: Report, fs: seq<nat>, table: seq<nat>, count: seq<nat>, p: set<nat>, c: nat)
    requires PowerReport(r, fs, table, count, p, c + 1)
    ensures PowerReport(r, fs, table, count, p, c)
  {
    var w, m: nat :| m < |count| && Chosen(w, p, c + 1, |table|, m) && IsAbout(r, fs, Names(table, w)) &&
        r.support == count[m];
    assert Chosen(w, p, c, |table|, m);
  }

  lemma WiderB(r: Report, fs: seq<nat>, table: seq<nat>, count: seq<nat>, p: set<nat>, c: nat)
    requires PowerReport(r, fs, table, count, p + {c}, c + 1)
    ensures PowerReport(r, fs, table, count, p, c)
  {
    var w, m: nat :| m < |count| && Chosen(w, p + {c}, c + 1, |table|, m) && IsAbout(r, fs, Names(table, w)) &&
        r.support == count[m];
    assert Chosen(w, p, c, |table|, m);
  }

  /** The half with item c has no report about a set without it, and the other way round. */
  lemma NotIn(
        out: seq<Report>, fs: seq<nat>, table: seq<nat>, count: seq<nat>, p: set<nat>, c: nat, w: set<nat>, with: bool)
    requires Disjoint(fs, table) && |count| == |table| && c < |table| && Below(p, c) && Below(w, |table|)
    requires forall k :: 0 <= k < |out| ==> PowerReport(out[k], fs, table, count, if with then p + {c} else p, c + 1)
    requires c in w <==> !with
    ensures Times(out, ToSet(fs) + Names(table, w)) == 0
  {
    var s := ToSet(fs) + Names(table, w);
    forall k | 0 <= k < |out|
      ensures ToSet(out[k].items) != s
    {
      var q := if with then p + {c} else p;
      assert PowerReport(out[k], fs, table, count, q, c + 1);
      var w', m: nat :| m < |count| && Chosen(w', q, c + 1, |table|, m) && IsAbout(out[k], fs, Names(table, w')) &&
          out[k].support == count[m];
      assert c in w' <==> with;
      if ToSet(out[k].items) == s {
        NamesInjective(fs, table, w, w');
      }
    }
    TimesNone(out, s);
  }

  lemma PowerEnd(fs: seq<nat>, table: seq<nat>, count: seq<nat>, prefix: seq<nat>)
    requires Disjoint(fs, table) && |count| == |table| && Ascending(prefix)
    requires forall k :: 0 <= k < |prefix| ==> prefix[k] < |table|
    ensures var out := if prefix == [] then [] else [Report(fs + Pick(table, prefix), count[prefix[|prefix| - 1]])];
            Power(out, fs, table, count, ToSet(prefix), |table|)
  {
    var n := |table|;
    var p := ToSet(prefix);
    PickSet(table, prefix);
    if prefix == [] {
      forall w, m: nat | Chosen(w, p, n, n, m)
        ensures false
      {
      }
    } else {
      var l := prefix[|prefix| - 1];
      var r := Report(fs + Pick(table, prefix), count[l]);
      ToSetAppend(fs, Pick(table, prefix));
      assert Distinct(r.items);
      assert Chosen(p, p, n, n, l);
      assert PowerReport(r, fs, table, count, p, n);
      forall w, m: nat | Chosen(w, p, n, n, m)
        ensures PowerOnce([r], fs, table, w)
      {
        assert w == p;
        TimesOne(r, ToSet(fs) + Names(table, w));
      }
    }
  }

  /** powerset, called by generate_all: items[current..] are still to be chosen or not. The count is
      looked up through the number of the last item chosen. */
  method Powerset(prefix: seq<nat>, items: seq<nat>, current: nat, fs: seq<nat>, count: seq<nat>, tempOrder: array<int>,
                  ghost chosen: seq<nat>)
    returns (out: seq<Report>)
    requires Disjoint(fs, items) && |count| == |items| && current <= |items|
    requires forall i :: 0 <= i < |items| ==> items[i] < tempOrder.Length && tempOrder[items[i]] == i
    requires Ascending(chosen) && (forall k :: 0 <= k < |chosen| ==> chosen[k] < current)
    requires prefix == Pick(items, chosen)
    ensures Power(out, fs, items, count, ToSet(chosen), current)
    decreases |items| - current
  {
    hide Power, Disjoint, ToSet, Ascending;
    if current == |items| {
      PowerEnd(fs, items, count, chosen);
      if prefix != [] {
        out := [Report(fs + prefix, count[tempOrder[prefix[|prefix| - 1]]])];
      } else {
        out := [];
      }
    } else {
      var a := Powerset(prefix, items, current + 1, fs, count, tempOrder, chosen);
      ghost var chosen' := chosen + [current];
      AscendingMore(chosen, current);
      assert prefix + [items[current]] == Pick(items, chosen');
      var b := Powerset(prefix + [items[current]], items, current + 1, fs, count, tempOrder, chosen');
      ToSetMore(chosen, current);
      PowerSplit(a, b, fs, items, count, ToSet(chosen), current);
      out := a + b;
    }
  }

  lemma AscendingMore(s: seq<nat>, x: nat)
    requires Ascending(s) && forall k :: 0 <= k < |s| ==> s[k] < x
    ensures Ascending(s + [x])
  {
  }

  lemma ToSetMore(s: seq<nat>, x: nat)
    ensures ToSet(s + [x]) == ToSet(s) + {x}
    ensures (forall k :: 0 <= k < |s| ==> s[k] < x) ==> Below(ToSet(s), x)
  {
    ToSetAppend(s, [x]);
  }

  lemma PowerSound(r: Report, fs: seq<nat>, t: FpTree, threshold: nat)
    requires |t.count| == |t.table| && PowerReport(r, fs, t.table, t.count, {}, 0)
    requires forall x: nat, z {:trigger Below(z, x)} ::
               x < |t.table| && Below(z, x) ==> TreeSup(t.root, {}, x, z) == t.count[x] >= threshold
    ensures SoundFrom(r, fs, t, 0, threshold)
  {
    hide IsAbout, TreeSup, Names;
    var w, m: nat :| m < |t.count| && Chosen(w, {}, 0, |t.table|, m) && IsAbout(r, fs, Names(t.table, w)) &&
        r.support == t.count[m];
    assert w - {m} + {m} == w && Below(w - {m}, m);
    assert ReportFor(r, fs, t, m, w - {m}, threshold);
    assert SoundAt(r, fs, t, m, threshold);
  }

  /** On a single path the power set is what is frequent. */
  lemma PowerCovers(out: seq<Report>, fs: seq<nat>, t: FpTree, threshold: nat)
    requires TreeOk(t, threshold) && threshold >= 1 && SinglePath(t.root)
    requires Power(out, fs, t.table, t.count, {}, 0)
    ensures Covers(out, fs, t, 0, threshold)
  {
    hide Sized, PowerReport, SoundFrom, Trie;
    var n := |t.table|;
    forall x: nat, z {:trigger Below(z, x)} | x < n && Below(z, x)
      ensures TreeSup(t.root, {}, x, z) == t.count[x] >= threshold
    {
      SinglePathSup(t.root, {}, 0, n, x, z);
    }
    forall k | 0 <= k < |out|
      ensures SoundFrom(out[k], fs, t, 0, threshold)
    {
      PowerSound(out[k], fs, t, threshold);
    }
    forall x: nat, z | 0 <= x < n && Below(z, x)
      ensures ExactAt(out, fs, t, x, z, threshold)
    {
      assert Chosen(z + {x}, {}, 0, n, x);
      assert PowerOnce(out, fs, t.table, z + {x});
    }
  }

  /** Without a frequent item there is nothing to report. */
  lemma NoneFrequent(fs: seq<nat>, table: seq<nat>, x: nat, db: seq<Trans>, threshold: nat)
    requires Frequent(db, x, threshold) == []
    ensures CoversDb([], fs, table, x, db, threshold)
  {
    FrequentIs(db, x, threshold);
    forall z | z != {} && Below(z, x)
      ensures ExactDb([], fs, table, db, threshold, z)
    {
      var i :| i in z;
      assert i !in Frequent(db, x, threshold);
      DbSupMonotone(db, {i}, z);
    }
  }

  /** With one frequent item there is one set. */
  lemma OneFrequent(fs: seq<nat>, table: seq<nat>, x: nat, db: seq<Trans>, threshold: nat, i: nat)
    requires Frequent(db, x, threshold) == [i] && i < x && Apart(fs, table, x)
    ensures CoversDb([Report(fs + [table[i]], DbSup(db, {i}))], fs, table, x, db, threshold)
  {
    hide DbSup, Frequent;
    var r := Report(fs + [table[i]], DbSup(db, {i}));
    FrequentIs(db, x, threshold);
    ToSetAppend(fs, [table[i]]);
    NamesOne(table, i);
    assert i in Frequent(db, x, threshold);
    assert FrequentIn(r, fs, table, x, db, threshold, {i});
    forall z | z != {} && Below(z, x)
      ensures ExactDb([r], fs, table, db, threshold, z)
    {
      TimesOne(r, ToSet(fs) + Names(table, z));
      if z != {i} {
        OtherSet(z, i);
        var j :| j in z && j != i;
        assert j !in Frequent(db, x, threshold);
        DbSupMonotone(db, {j}, z);
        assert table[j] in Names(table, z) && table[j] !in ToSet(fs + [table[i]]);
      }
    }
  }

  lemma OtherSet(z: set<nat>, i: nat)
    requires z != {} && z != {i}
    ensures exists j :: j in z && j != i
  {
    var rest := z - {i};
    assert z == rest || z == rest + {i};
    assert rest != {};
    var j :| j in rest;
  }

  /** The conditional tree is again a tree with exact supports, all of them frequent. */
  lemma ConditionalOk(t': FpTree, order: seq<int>, db: seq<Trans>, x: nat, threshold: nat, table: seq<nat>)
    requires TreeFor(t', order, db, x, threshold, table)
    ensures TreeOk(t', threshold)
  {
    hide DbSup, Frequent, Sized, Trie;
    forall k: nat | k < |t'.table|
      ensures t'.count[k] == TreeSup(t'.root, {}, k, {}) >= threshold
    {
      assert Numbered(order, db, x, threshold, k);
      var i: nat :| IsFrequent(db, x, threshold, i) && order[i] == k;
      assert Numbers(order, {i}) == {k} by {
        assert i in {i};
      }
      assert {} + {k} == {k};
      TreeForSup(t', order, db, x, threshold, table, {i}, k, {});
    }
  }

  /** All bits of the element type that holds itemno items. */
  function Mark(itemno: nat): nat {
    if itemno <= 0x100 then 0xff else if itemno <= 0x10000 then 0xffff else 0xffff_ffff
  }

  /** It is the greatest value of the smallest element type, of one, two or four bytes, that has a value for
      each of the items. */
  lemma MarkIs(itemno: nat)
    requires itemno <= 0x1_0000_0000
    ensures Mark(itemno) in {0xff, 0xffff, 0xffff_ffff} && itemno <= Mark(itemno) + 1
    ensures (Mark(itemno) > 0xff ==> itemno > 0x100) && (Mark(itemno) > 0xffff ==> itemno > 0x10000)
  {
  }

  /** The thread's work space is as every call finds and leaves it. */
  ghost predicate Clean(supp: array<int>, origin: array<bool>, tempOrder: array<int>, fast: array2<Option<nat>>,
                        table: seq<nat>)
    reads supp, origin, fast
  {
    && supp != tempOrder && |table| <= supp.Length && |table| <= origin.Length && IsTable(fast, |table|)
    && IsEmpty(fast)
    && (forall i :: 0 <= i < supp.Length ==> supp[i] == 0)
    && (forall i :: 0 <= i < origin.Length ==> !origin[i])
    && forall i :: 0 <= i < |table| ==> table[i] < tempOrder.Length
  }

  lemma {:induction false} FrequentFew(db: seq<Trans>, k: nat, threshold: nat)
    ensures |Frequent(db, k, threshold)| <= k
  {
    if k > 0 {
      FrequentFew(db, k - 1, threshold);
    }
  }

  /** FP_growth: every frequent set of items of the tree, behind the prefix fs, exactly once and with
      its exact support. */
  method FpGrowth(
        t: FpTree, fs: seq<nat>, threshold: nat, supp: array<int>, tempOrder: array<int>, origin: array<bool>,
        fast: array2<Option<nat>>)
    returns (out: seq<Report>)
    requires TreeOk(t, threshold) && threshold >= 1 && |t.table| < 0x8000_0000
    requires Disjoint(fs, t.table) && Clean(supp, origin, tempOrder, fast, t.table)
    modifies supp, tempOrder, origin, fast
    ensures Covers(out, fs, t, 0, threshold) && Clean(supp, origin, tempOrder, fast, t.table)
    decreases |t.table|, 2
  {
    hide Covers, CoversAt, Disjoint, Represents, Base, Trie, CoversDb;
    var n := |t.table|;
    var p := Transform(t.root, n, t.nodenum, t.data, Mark(n));
    out := [];
    CoversNone(fs, t, threshold);
    var sequence: nat := n;
    while sequence > 0
      invariant sequence <= n && Covers(out, fs, t, sequence, threshold)
      invariant Clean(supp, origin, tempOrder, fast, t.table)
    {
      sequence := sequence - 1;
      var fs' := fs + [t.table[sequence]];
      var first := Report(fs', t.count[sequence]);
      ApartFrom(fs, t.table, sequence);
      var rest := MineItem(t, p, fs', sequence, threshold, supp, tempOrder, origin, fast);
      LiftItem(rest, fs, t, sequence, Base(t.root, [], sequence), threshold);
      CoversMore(out, [first] + rest, fs, t, sequence, threshold);
      out := out + ([first] + rest);
    }
  }

  lemma CoversNone(fs: seq<nat>, t: FpTree, threshold: nat)
    ensures Covers([], fs, t, |t.table|, threshold)
  {
  }

  lemma ApartFrom(fs: seq<nat>, table: seq<nat>, x: nat)
    requires Disjoint(fs, table) && x < |table|
    ensures Apart(fs + [table[x]], table, x)
  {
  }

  /** The prefix has none of the items of the conditional tree. */
  lemma StillDisjoint(
        fs: seq<nat>, table: seq<nat>, x: nat, order: seq<int>, db: seq<Trans>, threshold: nat, ntable: seq<nat>,
        ncount: seq<nat>)
    requires Apart(fs, table, x) && Ordered(order, db, x, threshold, table, ntable, ncount)
    ensures Disjoint(fs, ntable)
  {
    hide DbSup, Frequent;
    forall k | 0 <= k < |ntable|
      ensures exists i: nat :: i < x && ntable[k] == table[i]
    {
      assert Numbered(order, db, x, threshold, k);
      var i: nat :| IsFrequent(db, x, threshold, i) && order[i] == k;
    }
  }

  /** One turn of its loop, after the item has been reported itself: nothing, one more set, or a
      conditional tree, which is mined as a single path or again by FP_growth. */
  method MineItem(
        t: FpTree, p: Packed, fs: seq<nat>, x: nat, threshold: nat, supp: array<int>, tempOrder: array<int>,
        origin: array<bool>, fast: array2<Option<nat>>)
    returns (out: seq<Report>)
    requires TreeOk(t, threshold) && threshold >= 1 && |t.table| < 0x8000_0000 && x < |t.table|
    requires Represents(p, t.root, |t.table|, Mark(|t.table|)) && Clean(supp, origin, tempOrder, fast, t.table)
    requires Apart(fs, t.table, x)
    modifies supp, tempOrder, origin, fast
    ensures CoversDb(out, fs, t.table, x, Base(t.root, [], x), threshold)
    ensures Clean(supp, origin, tempOrder, fast, t.table)
    decreases |t.table|, 1
  {
    hide CoversDb, Apart, Trie, Sized;
    ghost var db := Base(t.root, [], x);
    BaseDbOk(t.root, [], 0, |t.table|, x);
    var mark := Mark(|t.table|);
    var gtable, gcount, sum := [], [], 0;
    if x != 0 {
      gtable, gcount, sum := ConditionalPatternBase(p, t.table, x, mark, threshold, supp, tempOrder, db);
    }
    if |gtable| == 0 {
      out := [];
      NoneFrequent(fs, t.table, x, db, threshold);
    } else if |gtable| == 1 {
      out := [Report(fs + [gtable[0]], gcount[0])];
      ghost var i := Frequent(db, x, threshold)[0];
      assert Frequent(db, x, threshold) == [i];
      OneFrequent(fs, t.table, x, db, threshold, i);
    } else {
      out := MineConditional(t, p, fs, x, threshold, gtable, gcount, sum, supp, tempOrder, origin, fast);
    }
  }

  method MineConditional(
        t: FpTree, p: Packed, fs: seq<nat>, x: nat, threshold: nat, gtable: seq<nat>, gcount: seq<nat>, sum: nat,
        supp: array<int>, tempOrder: array<int>, origin: array<bool>, fast: array2<Option<nat>>)
    returns (out: seq<Report>)
    requires TreeOk(t, threshold) && threshold >= 1 && |t.table| < 0x8000_0000 && x < |t.table|
    requires Represents(p, t.root, |t.table|, Mark(|t.table|)) && Clean(supp, origin, tempOrder, fast, t.table)
    requires Apart(fs, t.table, x)
    requires var db := Base(t.root, [], x);
             && DbOk(db, x) && Selected(db, x, threshold, t.table, gtable, gcount)
             && forall i: nat :: i < x && 0 < DbSup(db, {i}) < threshold ==> tempOrder[t.table[i]] == -1
    modifies supp, tempOrder, origin, fast
    ensures CoversDb(out, fs, t.table, x, Base(t.root, [], x), threshold)
    ensures Clean(supp, origin, tempOrder, fast, t.table)
    decreases |t.table|, 0
  {
    ghost var db := Base(t.root, [], x);
    var ntable, ncount, order := Scan1(gtable, gcount, t.table, x, threshold, tempOrder, db);
    var n := |ntable|;
    FrequentFew(db, x, threshold);
    forall k | 0 <= k < |db|
      ensures Maps(order, db[k].items, n)
    {
      OrderMaps(order, db, x, threshold, t.table, ntable, ncount, k);
    }
    var root, nodenum, data := Scan2(p, x, Mark(|t.table|), order, n, NumHot(n, sum), origin, fast, db);
    var t' := FpTree(root, ntable, ncount, nodenum, data);
    assert TreeFor(t', order, db, x, threshold, t.table);
    ConditionalOk(t', order, db, x, threshold, t.table);
    StillDisjoint(fs, t.table, x, order, db, threshold, ntable, ncount);
    if SinglePath(root) {
      PathHasAll(t', threshold);
      out := Powerset([], Pick(ntable, PathItems(root)), 0, fs, ncount, tempOrder, []);
      assert ToSet([]) == {};
      PowerCovers(out, fs, t', threshold);
    } else {
      out := FpGrowth(t', fs, threshold, supp, tempOrder, origin, fast);
    }
    LiftTree(out, fs, t', order, db, x, threshold, t.table);
  }
}
