/** What the miner reports, and how the reports of a conditional tree become reports of the tree. */
module FpReports {
  import opened FpForest
  import opened FpArray
  import opened FpBuild
  import opened FpScan

  /** A line of output: an item set in the order it is printed, and its support. */
  datatype Report = Report(items: seq<nat>, support: nat)

  /** A tree with its header table: the items by their global names and their supports. */
  datatype FpTree = FpTree(root: Forest, table: seq<nat>, count: seq<nat>, nodenum: seq<nat>, data: nat)

  ghost predicate TreeOk(t: FpTree, threshold: nat) {
    var n := |t.table|;
    && |t.count| == n && Distinct(t.table) && Trie(t.root, 0, n) && Sized(t.root, n, t.nodenum, t.data)
    && forall x: nat :: x < n ==> t.count[x] == TreeSup(t.root, {}, x, {}) >= threshold
  }

  /** The global names of a set of local numbers. */
  function Names(table: seq<nat>, z: set<nat>): set<nat> {
    set i | i in z && i < |table| :: table[i]
  }

  /** How many reports are about the item set s. */
  function Times(out: seq<Report>, s: set<nat>): nat {
    if out == [] then 0 else Times(out[..|out| - 1], s) + (if ToSet(out[|out| - 1].items) == s then 1 else 0)
  }

  lemma {:induction false} TimesAppend(a: seq<Report>, b: seq<Report>, s: set<nat>)
    ensures Times(a + b, s) == Times(a, s) + Times(b, s)
  {
    if b == [] {
      assert a + b == a;
    } else {
      var n := |b| - 1;
      assert (a + b)[..|a + b| - 1] == a + b[..n];
      TimesAppend(a, b[..n], s);
    }
  }

  lemma {:induction false} TimesNone(out: seq<Report>, s: set<nat>)
    requires forall k :: 0 <= k < |out| ==> ToSet(out[k].items) != s
    ensures Times(out, s) == 0
  {
    if out != [] {
      TimesNone(out[..|out| - 1], s);
    }
  }

  lemma TimesOne(r: Report, s: set<nat>)
    ensures Times([r], s) == if ToSet(r.items) == s then 1 else 0
  {
    assert [r][..0] == [];
  }

  /** The report r is about the prefix fs and, behind it in some order, the items names. */
  ghost predicate IsAbout(r: Report, fs: seq<nat>, names: set<nat>) {
    fs <= r.items && Distinct(r.items) && ToSet(r.items) == ToSet(fs) + names
  }

  /** A report about the item x of a tree together with the items z below it. */
  ghost predicate ReportFor(r: Report, fs: seq<nat>, t: FpTree, x: nat, z: set<nat>, threshold: nat) {
    && x < |t.table| && Below(z, x) && IsAbout(r, fs, Names(t.table, z + {x}))
    && r.support == TreeSup(t.root, {}, x, z) >= threshold
  }

  ghost predicate SoundAt(r: Report, fs: seq<nat>, t: FpTree, x: nat, threshold: nat) {
    exists z :: ReportFor(r, fs, t, x, z, threshold)
  }

  ghost predicate SoundFrom(r: Report, fs: seq<nat>, t: FpTree, lo: nat, threshold: nat) {
    exists x :: lo <= x && SoundAt(r, fs, t, x, threshold)
  }

  ghost predicate SoundElsewhere(r: Report, fs: seq<nat>, t: FpTree, x: nat, threshold: nat) {
    exists x' :: x' != x && SoundAt(r, fs, t, x', threshold)
  }

  /** The set of x and z, which is below x, is reported once if it is frequent and else not at all. */
  ghost predicate ExactAt(out: seq<Report>, fs: seq<nat>, t: FpTree, x: nat, z: set<nat>, threshold: nat) {
    Times(out, ToSet(fs) + Names(t.table, z + {x})) == if TreeSup(t.root, {}, x, z) >= threshold then 1 else 0
  }

  /** The reports for item x as the last one of a set. */
  ghost predicate CoversAt(out: seq<Report>, fs: seq<nat>, t: FpTree, x: nat, threshold: nat) {
    && (forall k :: 0 <= k < |out| ==> SoundAt(out[k], fs, t, x, threshold))
    && (forall z :: Below(z, x) ==> ExactAt(out, fs, t, x, z, threshold))
  }

  /** Every frequent set of items of the tree is reported exactly once, with its support, and nothing
      else is. A nonempty set of items is its last item x and a set z below x. */
  ghost predicate Covers(out: seq<Report>, fs: seq<nat>, t: FpTree, lo: nat, threshold: nat) {
    && (forall k :: 0 <= k < |out| ==> SoundFrom(out[k], fs, t, lo, threshold))
    && (forall x: nat, z {:trigger ExactAt(out, fs, t, x, z, threshold)} ::
          lo <= x < |t.table| && Below(z, x) ==> ExactAt(out, fs, t, x, z, threshold))
  }

  predicate Disjoint(fs: seq<nat>, table: seq<nat>) {
    Distinct(fs) && Distinct(table) && forall i :: 0 <= i < |table| ==> table[i] !in fs
  }

  lemma NamesInjective(fs: seq<nat>, table: seq<nat>, y: set<nat>, z: set<nat>)
    requires Disjoint(fs, table) && Below(y, |table|) && Below(z, |table|)
    requires ToSet(fs) + Names(table, y) == ToSet(fs) + Names(table, z)
    ensures y == z
  {
    NamesSubset(fs, table, y, z);
    NamesSubset(fs, table, z, y);
  }

  lemma NamesSubset(fs: seq<nat>, table: seq<nat>, y: set<nat>, z: set<nat>)
    requires Disjoint(fs, table) && Below(y, |table|) && Below(z, |table|)
    requires Names(table, y) <= ToSet(fs) + Names(table, z)
    ensures y <= z
  {
    forall i | i in y
      ensures i in z
    {
      assert table[i] in Names(table, y);
      assert table[i] in Names(table, z);
    }
  }

  /** Reports about another last item are about other sets. */
  lemma OtherLast(out: seq<Report>, fs: seq<nat>, t: FpTree, x: nat, z: set<nat>, threshold: nat)
    requires Disjoint(fs, t.table) && x < |t.table| && Below(z, x)
    requires forall k :: 0 <= k < |out| ==> SoundElsewhere(out[k], fs, t, x, threshold)
    ensures Times(out, ToSet(fs) + Names(t.table, z + {x})) == 0
  {
    forall k | 0 <= k < |out|
      ensures ToSet(out[k].items) != ToSet(fs) + Names(t.table, z + {x})
    {
      var x' :| x' != x && SoundAt(out[k], fs, t, x', threshold);
      var z' :| ReportFor(out[k], fs, t, x', z', threshold);
      if ToSet(out[k].items) == ToSet(fs) + Names(t.table, z + {x}) {
        assert x in z + {x} && x' in z' + {x'};
        NamesInjective(fs, t.table, z + {x}, z' + {x'});
      }
    }
    TimesNone(out, ToSet(fs) + Names(t.table, z + {x}));
  }

  /** One more item of the header has been mined. */
  lemma CoversMore(out: seq<Report>, more: seq<Report>, fs: seq<nat>, t: FpTree, x: nat, threshold: nat)
    requires Disjoint(fs, t.table) && x < |t.table|
    requires Covers(out, fs, t, x + 1, threshold) && CoversAt(more, fs, t, x, threshold)
    ensures Covers(out + more, fs, t, x, threshold)
  {
    hide ExactAt, SoundAt;
    forall k | 0 <= k < |out + more|
      ensures SoundFrom((out + more)[k], fs, t, x, threshold)
    {
      if k < |out| {
        assert SoundFrom(out[k], fs, t, x + 1, threshold);
        assert (out + more)[k] == out[k];
      } else {
        assert SoundAt(more[k - |out|], fs, t, x, threshold);
        assert (out + more)[k] == more[k - |out|];
      }
    }
    forall x': nat, z | x <= x' < |t.table| && Below(z, x')
      ensures ExactAt(out + more, fs, t, x', z, threshold)
    {
      ExactMore(out, more, fs, t, x, x', z, threshold);
    }
  }

  lemma ExactMore(
        out: seq<Report>, more: seq<Report>, fs: seq<nat>, t: FpTree, x: nat, x': nat, z: set<nat>, threshold: nat)
    requires Disjoint(fs, t.table) && x <= x' < |t.table| && Below(z, x')
    requires Covers(out, fs, t, x + 1, threshold) && CoversAt(more, fs, t, x, threshold)
    ensures ExactAt(out + more, fs, t, x', z, threshold)
  {
    hide SoundAt, Names;
    TimesAppend(out, more, ToSet(fs) + Names(t.table, z + {x'}));
    if x' == x {
      assert ExactAt(more, fs, t, x, z, threshold);
      forall k | 0 <= k < |out|
        ensures SoundElsewhere(out[k], fs, t, x, threshold)
      {
        assert SoundFrom(out[k], fs, t, x + 1, threshold);
      }
      OtherLast(out, fs, t, x, z, threshold);
    } else {
      assert ExactAt(out, fs, t, x', z, threshold);
      forall k | 0 <= k < |more|
        ensures SoundElsewhere(more[k], fs, t, x', threshold)
      {
        assert SoundAt(more[k], fs, t, x, threshold);
      }
      OtherLast(more, fs, t, x', z, threshold);
    }
  }
}
