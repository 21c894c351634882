/** The reorder stage by itself: chunks that arrive in any order leave in the order of the stream. */
module Reorder {
  import opened Chunks
  import opened Pipeline
  import opened PipelineFlow
  import opened PipelineOrder

  /** All chunks of a stream with their numbers; the last of each coarse piece is marked. */
  predicate Complete(fine: seq<seq<Chunk>>) {
    forall i :: 0 <= i < |fine| ==> fine[i] != [] && RowOk(fine, i)
  }

  predicate RowOk(fine: seq<seq<Chunk>>, i: nat)
    requires i < |fine|
  {
    forall j :: 0 <= j < |fine[i]| ==> fine[i][j].Id() == SeqNum(i, j) && (fine[i][j].last <==> j == |fine[i]| - 1)
  }

  /** The number of a chunk, or the one behind all chunks. */
  predicate IsNext(fine: seq<seq<Chunk>>, n: SeqNum) {
    if n.l1 < |fine| then n.l2 < |fine[n.l1]| else n == SeqNum(|fine|, 0)
  }

  lemma CompletePart(fine: seq<seq<Chunk>>, n: nat)
    requires Complete(fine) && n <= |fine|
    ensures Complete(fine[..n])
  {
    assert forall i :: 0 <= i < n ==> RowOk(fine, i);
  }

  lemma {:induction false} FlatIs(fine: seq<seq<Chunk>>, x: Chunk)
    requires Complete(fine)
    ensures x in Flat(fine) <==> Created(fine, x)
  {
    if fine != [] {
      var n := |fine| - 1;
      CompletePart(fine, n);
      FlatIs(fine[..n], x);
      assert RowOk(fine, n);
    }
  }

  lemma {:induction false} FlatOnce(fine: seq<seq<Chunk>>, x: Chunk)
    requires Complete(fine)
    ensures multiset(Flat(fine))[x] <= 1
  {
    if fine != [] {
      var n := |fine| - 1;
      CompletePart(fine, n);
      FlatOnce(fine[..n], x);
      FlatIs(fine[..n], x);
      RowsDiffer(fine, n, x);
      hide Complete, Flat;
      Added(Flat(fine[..n]), fine[n], x);
      FlatLast(fine);
    }
  }

  lemma FlatLast(fine: seq<seq<Chunk>>)
    requires fine != []
    ensures Flat(fine) == Flat(fine[..|fine| - 1]) + fine[|fine| - 1]
  {
  }

  lemma Added(a: seq<Chunk>, b: seq<Chunk>, x: Chunk)
    ensures multiset(a + b)[x] == multiset(a)[x] + multiset(b)[x]
    ensures x !in a ==> multiset(a)[x] == 0
  {
  }

  /** A chunk of one row is there once, and not in the rows before. */
  lemma RowsDiffer(fine: seq<seq<Chunk>>, n: nat, x: Chunk)
    requires Complete(fine) && n < |fine|
    ensures multiset(fine[n])[x] == if x in fine[n] then 1 else 0
    ensures x in fine[n] ==> !Created(fine[..n], x)
  {
    assert RowOk(fine, n);
    RowOnce(fine[n], x);
  }

  lemma InFlat(fine: seq<seq<Chunk>>, x: Chunk)
    requires Complete(fine)
    ensures x in Flat(fine) <==> Created(fine, x)
    ensures multiset(Flat(fine))[x] <= 1
  {
    FlatIs(fine, x);
    FlatOnce(fine, x);
  }

  lemma {:induction false} RowOnce(row: seq<Chunk>, x: Chunk)
    requires forall i, j :: 0 <= i < j < |row| ==> row[i] != row[j]
    ensures multiset(row)[x] == if x in row then 1 else 0
  {
    if row != [] {
      var n := |row| - 1;
      assert row == row[..n] + [row[n]];
      RowOnce(row[..n], x);
    }
  }

  /** The next chunk is written and the number goes on, to the next piece behind the last of one. */
  lemma WritePrefix(fine: seq<seq<Chunk>>, n: SeqNum, c: Chunk)
    requires Complete(fine) && IsNext(fine, n) && Created(fine, c) && c.Id() == n
    ensures var n' := if c.last then IncL1(n) else IncL2(n);
            IsNext(fine, n') && Prefix(fine, n') == Prefix(fine, n) + [c]
    ensures forall x :: Created(fine, x) ==>
              (SeqLt(x.Id(), if c.last then IncL1(n) else IncL2(n)) <==> SeqLt(x.Id(), n) || x == c)
  {
    var row := fine[n.l1];
    assert RowOk(fine, n.l1) && row[n.l2] == c;
    assert row[..n.l2 + 1] == row[..n.l2] + [c];
    forall x | Created(fine, x)
      ensures SeqLt(x.Id(), if c.last then IncL1(n) else IncL2(n)) <==> SeqLt(x.Id(), n) || x == c
    {
      assert RowOk(fine, x.l1);
    }
    if c.last {
      assert row[..n.l2 + 1] == row;
      assert fine[..n.l1 + 1][..n.l1] == fine[..n.l1];
      if n.l1 + 1 < |fine| {
        assert fine[n.l1 + 1][..0] == [];
      }
    }
  }

  /** chunks_per_anchor has the sizes of the pieces whose last chunk was seen. */
  ghost predicate SizesOk(fine: seq<seq<Chunk>>, seen: seq<Chunk>, cpa: map<nat, nat>) {
    forall x :: x in seen && x.last ==> x.l1 in cpa && cpa[x.l1] == x.l2 + 1
  }

  ghost predicate SizesOnly(fine: seq<seq<Chunk>>, cpa: map<nat, nat>) {
    forall l :: l in cpa ==> l < |fine| && cpa[l] == |fine[l]|
  }

  /** The chunks seen are some of the stream, those below n are among them, and the cache has the others
      but the one at hand. */
  ghost predicate CacheOk(
        fine: seq<seq<Chunk>>, seen: seq<Chunk>, n: SeqNum, hand: Option<Chunk>, tree: map<nat, set<Chunk>>)
  {
    && TreeOk(tree)
    && (forall x :: x in seen ==> Created(fine, x))
    && (forall x :: Created(fine, x) && SeqLt(x.Id(), n) ==> x in seen)
    && forall x :: InTree(tree, x) <==> x in seen && !SeqLt(x.Id(), n) && hand != Some(x)
  }

  ghost predicate Going(fine: seq<seq<Chunk>>, seen: seq<Chunk>, n: SeqNum, hand: Option<Chunk>,
                        tree: map<nat, set<Chunk>>, cpa: map<nat, nat>, written: seq<Chunk>)
  {
    && IsNext(fine, n) && written == Prefix(fine, n) && SizesOk(fine, seen, cpa) && SizesOnly(fine, cpa)
    && CacheOk(fine, seen, n, hand, tree)
    && (hand.Some? ==> hand.value in seen && hand.value.Id() == n)
    && (hand == None ==> forall x :: x in seen ==> x.Id() != n)
  }

  ghost predicate IsPos(tree: map<nat, set<Chunk>>, pos: Option<nat>) {
    if tree == map[] then pos == None else pos.Some? && IsTreeMin(tree, pos.value)
  }

  /** The key of the least tree element, as TreeFindMin finds it. */
  method TreeFindMin(tree: map<nat, set<Chunk>>) returns (pos: Option<nat>)
    ensures IsPos(tree, pos)
  {
    pos := None;
    var keys := tree.Keys;
    while keys != {}
      invariant keys <= tree.Keys
      invariant pos == None ==> keys == tree.Keys
      invariant pos.Some? ==> pos.value in tree && forall k :: k in tree && k !in keys ==> pos.value <= k
      decreases |keys|
    {
      var k :| k in keys;
      if pos == None || k < pos.value {
        pos := Some(k);
      }
      keys := keys - {k};
    }
  }

  method FindMin(heap: set<Chunk>) returns (c: Chunk)
    requires heap != {}
    ensures IsHeapMin(heap, c)
  {
    c :| c in heap;
    var rest := heap - {c};
    while rest != {}
      invariant rest <= heap && c in heap && forall d :: d in heap - rest ==> c.l2 <= d.l2
      decreases |rest|
    {
      var d :| d in rest;
      if d.l2 < c.l2 {
        c := d;
      }
      rest := rest - {d};
    }
  }

  /** The size that a last chunk tells. */
  lemma SeeSize(fine: seq<seq<Chunk>>, seen: seq<Chunk>, cpa: map<nat, nat>, c: Chunk)
    requires Complete(fine) && SizesOk(fine, seen, cpa) && SizesOnly(fine, cpa) && Created(fine, c)
    ensures var cpa' := if c.last then cpa[c.l1 := c.l2 + 1] else cpa;
            SizesOk(fine, seen + [c], cpa') && SizesOnly(fine, cpa')
  {
    assert RowOk(fine, c.l1);
  }

  /** A chunk that is not the next one goes into the cache. */
  lemma CacheMore(fine: seq<seq<Chunk>>, seen: seq<Chunk>, n: SeqNum, tree: map<nat, set<Chunk>>, c: Chunk)
    requires CacheOk(fine, seen, n, None, tree) && Created(fine, c) && c !in seen && c.Id() != n
    ensures CacheOk(fine, seen + [c], n, None, TreeAdd(tree, c))
  {
    var tree' := TreeAdd(tree, c);
    forall x
      ensures InTree(tree', x) <==> InTree(tree, x) || x == c
    {
    }
  }

  /** The expected chunk is at the minimum of the minimum heap, if it is in the cache at all. */
  lemma NextAtMin(fine: seq<seq<Chunk>>, seen: seq<Chunk>, n: SeqNum, tree: map<nat, set<Chunk>>, x: Chunk)
    requires CacheOk(fine, seen, n, None, tree) && InTree(tree, x) && x.Id() == n
    ensures IsTreeMin(tree, n.l1) && IsHeapMin(tree[n.l1], x)
  {
    forall k | k in tree
      ensures n.l1 <= k
    {
      var y :| y in tree[k];
      assert InTree(tree, y);
    }
    forall y | y in tree[n.l1]
      ensures x.l2 <= y.l2
    {
      assert InTree(tree, y);
    }
  }

  /** Writing the chunk at hand: the number that follows. */
  lemma Written(fine: seq<seq<Chunk>>, seen: seq<Chunk>, n: SeqNum, c: Chunk, tree: map<nat, set<Chunk>>,
                cpa: map<nat, nat>, written: seq<Chunk>)
    requires Complete(fine) && Going(fine, seen, n, Some(c), tree, cpa, written)
    ensures var n' := Advance(n, cpa);
            IsNext(fine, n') && written + [c] == Prefix(fine, n') && CacheOk(fine, seen, n', None, tree)
  {
    hide Prefix;
    var n' := if c.last then IncL1(n) else IncL2(n);
    WritePrefix(fine, n, c);
    assert RowOk(fine, n.l1);
    assert Advance(n, cpa) == n';
    forall x
      ensures InTree(tree, x) <==> x in seen && !SeqLt(x.Id(), n')
    {
      assert x in seen ==> Created(fine, x);
    }
  }

  /** The next chunk is taken from the cache. */
  lemma TakeNext(fine: seq<seq<Chunk>>, seen: seq<Chunk>, n: SeqNum, tree: map<nat, set<Chunk>>, d: Chunk)
    requires CacheOk(fine, seen, n, None, tree) && InTree(tree, d) && d.Id() == n
    ensures d in seen && CacheOk(fine, seen, n, Some(d), TreeTake(tree, d))
  {
    var tree' := TreeTake(tree, d);
    forall x
      ensures InTree(tree', x) <==> InTree(tree, x) && x != d
    {
    }
  }

  /** A chunk arrives; if it is the next one it is written with all that follow it in the cache. */
  method Arrive(c: Chunk, n0: SeqNum, tree0: map<nat, set<Chunk>>, cpa0: map<nat, nat>, written0: seq<Chunk>,
                ghost fine: seq<seq<Chunk>>, ghost seen: seq<Chunk>)
    returns (n: SeqNum, tree: map<nat, set<Chunk>>, cpa: map<nat, nat>, written: seq<Chunk>)
    requires Complete(fine) && Going(fine, seen, n0, None, tree0, cpa0, written0) && Created(fine, c) && c !in seen
    ensures Going(fine, seen + [c], n, None, tree, cpa, written)
  {
    hide SizesOk, SizesOnly, CacheOk, Prefix, Complete;
    n, tree, cpa, written := n0, tree0, cpa0, written0;
    SeeSize(fine, seen, cpa, c);
    if c.last {
      cpa := cpa[c.l1 := c.l2 + 1];
    }
    if c.Id() != n {
      CacheMore(fine, seen, n, tree, c);
      tree := TreeAdd(tree, c);
    } else {
      AtHand(fine, seen, n, tree, c);
      n, tree, written := WriteRun(c, n, tree, cpa, written, fine, seen + [c]);
    }
  }

  lemma AtHand(fine: seq<seq<Chunk>>, seen: seq<Chunk>, n: SeqNum, tree: map<nat, set<Chunk>>, c: Chunk)
    requires CacheOk(fine, seen, n, None, tree) && Created(fine, c) && c !in seen && c.Id() == n
    ensures CacheOk(fine, seen + [c], n, Some(c), tree)
  {
  }

  /** If the next chunk is in the cache, it is what the loop looks at. */
  lemma LooksAtNext(
        fine: seq<seq<Chunk>>, seen: seq<Chunk>, n: SeqNum, tree: map<nat, set<Chunk>>, pos: Option<nat>, x: Chunk)
    requires CacheOk(fine, seen, n, None, tree) && IsPos(tree, pos) && x in seen && x.Id() == n
    ensures pos == Some(n.l1) && n.l1 in tree && forall d :: IsHeapMin(tree[n.l1], d) ==> d.Id() == n
  {
    assert InTree(tree, x);
    NextAtMin(fine, seen, n, tree, x);
  }

  lemma NotCached(fine: seq<seq<Chunk>>, seen: seq<Chunk>, n: SeqNum, tree: map<nat, set<Chunk>>, pos: Option<nat>)
    requires CacheOk(fine, seen, n, None, tree) && IsPos(tree, pos)
    requires pos == Some(n.l1) ==> n.l1 in tree && exists d :: IsHeapMin(tree[n.l1], d) && d.Id() != n
    ensures forall x :: x in seen ==> x.Id() != n
  {
    hide CacheOk, IsPos, IsHeapMin;
    forall x | x in seen
      ensures x.Id() != n
    {
      if x.Id() == n {
        LooksAtNext(fine, seen, n, tree, pos, x);
      }
    }
  }

  lemma InHeap(fine: seq<seq<Chunk>>, seen: seq<Chunk>, n: SeqNum, tree: map<nat, set<Chunk>>, l1: nat)
    requires CacheOk(fine, seen, n, None, tree) && l1 in tree
    ensures tree[l1] != {} && forall d :: d in tree[l1] ==> InTree(tree, d)
  {
  }

  lemma TakeKeeps(tree: map<nat, set<Chunk>>, d: Chunk)
    requires InTree(tree, d) && IsTreeMin(tree, d.l1) && tree[d.l1] != {d}
    ensures IsTreeMin(TreeTake(tree, d), d.l1) && TreeTake(tree, d) != map[]
  {
  }

  lemma {:induction false} FlatLength(fine: seq<seq<Chunk>>, i: nat)
    requires i <= |fine|
    ensures |Flat(fine[..i])| <= |Flat(fine)|
    ensures i < |fine| ==> |Flat(fine[..i])| + |fine[i]| <= |Flat(fine)|
    decreases |fine|
  {
    if i == |fine| {
      assert fine[..i] == fine;
    } else {
      var m := |fine| - 1;
      assert fine[..m][..i] == fine[..i];
      FlatLength(fine[..m], i);
    }
  }

  lemma PrefixLength(fine: seq<seq<Chunk>>, n: SeqNum)
    requires IsNext(fine, n)
    ensures |Prefix(fine, n)| <= |Flat(fine)|
  {
    FlatLength(fine, n.l1);
  }

  /** The writing loop. The position of the least tree element is looked up again only when its heap has
      become empty. */
  method WriteRun(c: Chunk, n0: SeqNum, tree0: map<nat, set<Chunk>>, cpa: map<nat, nat>, written0: seq<Chunk>,
                  ghost fine: seq<seq<Chunk>>, ghost seen: seq<Chunk>)
    returns (n: SeqNum, tree: map<nat, set<Chunk>>, written: seq<Chunk>)
    requires Complete(fine) && Going(fine, seen, n0, Some(c), tree0, cpa, written0)
    ensures Going(fine, seen, n, None, tree, cpa, written)
  {
    hide SizesOk, SizesOnly, CacheOk, Prefix, Complete, Advance, TreeTake, IsHeapMin, IsTreeMin;
    n, tree, written := n0, tree0, written0;
    var pos := TreeFindMin(tree);
    var chunk := Some(c);
    PrefixLength(fine, n);
    while chunk.Some?
      invariant Going(fine, seen, n, chunk, tree, cpa, written) && |written| <= |Flat(fine)|
      invariant IsPos(tree, pos)
      decreases |Flat(fine)| - |written|
    {
      Written(fine, seen, n, chunk.value, tree, cpa, written);
      written := written + [chunk.value];
      n := Advance(n, cpa);
      PrefixLength(fine, n);
      chunk, tree, pos := FromCache(n, tree, pos, fine, seen);
    }
  }

  /** The look into the cache for the chunk that follows. */
  method FromCache(
        n: SeqNum, tree0: map<nat, set<Chunk>>, pos0: Option<nat>, ghost fine: seq<seq<Chunk>>, ghost seen: seq<Chunk>)
    returns (chunk: Option<Chunk>, tree: map<nat, set<Chunk>>, pos: Option<nat>)
    requires CacheOk(fine, seen, n, None, tree0)
    requires IsPos(tree0, pos0)
    ensures CacheOk(fine, seen, n, chunk, tree)
    ensures IsPos(tree, pos)
    ensures if chunk.Some? then chunk.value in seen && chunk.value.Id() == n else forall x :: x in seen ==> x.Id() != n
  {
    hide CacheOk, TreeTake;
    chunk, tree, pos := None, tree0, pos0;
    if pos == Some(n.l1) {
      InHeap(fine, seen, n, tree, n.l1);
      var d := FindMin(tree[n.l1]);
      if d.Id() == n {
        TakeNext(fine, seen, n, tree, d);
        chunk := Some(d);
        if tree[n.l1] == {d} {
          tree := TreeTake(tree, d);
          pos := TreeFindMin(tree);
        } else {
          TakeKeeps(tree, d);
          tree := TreeTake(tree, d);
        }
        return;
      }
    }
    NotCached(fine, seen, n, tree, pos);
  }

  /** The main loop of Reorder over all that arrives: whatever the order, everything is written once in the
      order of the stream, and nothing is left for the loop that flushes the cache. */
  method Run(arrivals: seq<Chunk>, ghost fine: seq<seq<Chunk>>)
    returns (written: seq<Chunk>, tree: map<nat, set<Chunk>>)
    requires Complete(fine) && multiset(arrivals) == multiset(Flat(fine))
    ensures written == Flat(fine) && tree == map[]
  {
    hide Complete, Going;
    var n, cpa: map<nat, nat> := SeqNum(0, 0), map[];
    written, tree := [], map[];
    Begin(fine);
    for k := 0 to |arrivals|
      invariant Going(fine, arrivals[..k], n, None, tree, cpa, written)
    {
      ArrivesOnce(arrivals, fine, k);
      n, tree, cpa, written := Arrive(arrivals[k], n, tree, cpa, written, fine, arrivals[..k]);
      assert arrivals[..k] + [arrivals[k]] == arrivals[..k + 1];
    }
    assert arrivals[..|arrivals|] == arrivals;
    End(arrivals, fine, n, tree, cpa, written);
  }

  lemma Begin(fine: seq<seq<Chunk>>)
    requires Complete(fine)
    ensures Going(fine, [], SeqNum(0, 0), None, map[], map[], [])
  {
    assert fine != [] ==> fine[0][..0] == [];
  }

  lemma ArrivesOnce(arrivals: seq<Chunk>, fine: seq<seq<Chunk>>, k: nat)
    requires Complete(fine) && multiset(arrivals) == multiset(Flat(fine)) && k < |arrivals|
    ensures Created(fine, arrivals[k]) && arrivals[k] !in arrivals[..k]
  {
    var x := arrivals[k];
    InFlat(fine, x);
    assert x in multiset(arrivals);
    assert arrivals == arrivals[..k] + [x] + arrivals[k + 1..];
    assert multiset(arrivals)[x] == multiset(arrivals[..k])[x] + 1 + multiset(arrivals[k + 1..])[x];
  }

  lemma StillToCome(arrivals: seq<Chunk>, fine: seq<seq<Chunk>>, n: SeqNum)
    requires Complete(fine) && multiset(arrivals) == multiset(Flat(fine)) && IsNext(fine, n) && n.l1 < |fine|
    ensures exists x :: x in arrivals && x.Id() == n
  {
    var x := fine[n.l1][n.l2];
    assert RowOk(fine, n.l1);
    InFlat(fine, x);
    assert x in multiset(arrivals);
  }

  lemma End(arrivals: seq<Chunk>, fine: seq<seq<Chunk>>, n: SeqNum, tree: map<nat, set<Chunk>>, cpa: map<nat, nat>,
            written: seq<Chunk>)
    requires Complete(fine) && multiset(arrivals) == multiset(Flat(fine))
    requires Going(fine, arrivals, n, None, tree, cpa, written)
    ensures written == Flat(fine) && tree == map[]
  {
    if n.l1 < |fine| {
      StillToCome(arrivals, fine, n);
    }
    assert fine[..|fine|] == fine;
    forall x
      ensures !InTree(tree, x)
    {
      assert x in arrivals ==> Created(fine, x);
    }
    if tree != map[] {
      var l :| l in tree;
      var x :| x in tree[l];
      assert InTree(tree, x);
    }
  }
}
