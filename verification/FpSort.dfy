/** The sort of the header table: quicksort in descending order, with a companion array. */
module FpSort {

  const SORTHRESH: int := 9

  datatype Pair = Pair(key: int, tag: int)

  function Zip(a: seq<int>, t: seq<int>): (z: seq<Pair>)
    requires |a| == |t|
    ensures |z| == |a| && forall p :: 0 <= p < |z| ==> z[p] == Pair(a[p], t[p])
  {
    seq(|a|, (p: nat) requires p < |a| && p < |t| => Pair(a[p], t[p]))
  }

  /** From lo up to hi (exclusive) the pairs are rearranged, elsewhere nothing changed. */
  ghost predicate Rearranged(z: seq<Pair>, z': seq<Pair>, lo: int, hi: int) {
    && |z'| == |z| && 0 <= lo <= hi <= |z|
    && z'[..lo] == z[..lo] && z'[hi..] == z[hi..]
    && multiset(z'[lo..hi]) == multiset(z[lo..hi])
  }

  lemma RearrangedSelf(z: seq<Pair>, lo: int, hi: int)
    requires 0 <= lo <= hi <= |z|
    ensures Rearranged(z, z, lo, hi)
  {
  }

  lemma RearrangedTrans(z: seq<Pair>, z1: seq<Pair>, z2: seq<Pair>, lo: int, hi: int)
    requires Rearranged(z, z1, lo, hi) && Rearranged(z1, z2, lo, hi)
    ensures Rearranged(z, z2, lo, hi)
  {
  }

  /** Rearranging a part rearranges the whole. */
  lemma RearrangedWider(z: seq<Pair>, z': seq<Pair>, lo: int, hi: int, lo': int, hi': int)
    requires Rearranged(z, z', lo, hi) && 0 <= lo' <= lo && hi <= hi' <= |z|
    ensures Rearranged(z, z', lo', hi')
  {
    assert z[lo'..hi'] == z[lo'..lo] + z[lo..hi] + z[hi..hi'];
    assert z'[lo'..hi'] == z'[lo'..lo] + z'[lo..hi] + z'[hi..hi'];
    assert z'[lo'..lo] == z'[..lo][lo'..] == z[..lo][lo'..] == z[lo'..lo];
    assert z'[hi..hi'] == z'[hi..][..hi' - hi] == z[hi..][..hi' - hi] == z[hi..hi'];
    assert z'[..lo'] == z'[..lo][..lo'] == z[..lo][..lo'] == z[..lo'];
    assert z'[hi'..] == z'[hi..][hi' - hi..] == z[hi..][hi' - hi..] == z[hi'..];
  }

  /** Every pair of the part was in the part before. */
  lemma RearrangedMember(z: seq<Pair>, z': seq<Pair>, lo: int, hi: int, p: int) returns (q: int)
    requires Rearranged(z, z', lo, hi) && lo <= p < hi
    ensures lo <= q < hi && z'[p] == z[q]
  {
    assert z'[p] == z'[lo..hi][p - lo];
    assert z'[p] in multiset(z'[lo..hi]);
    assert z'[p] in z[lo..hi];
    var k :| 0 <= k < hi - lo && z[lo..hi][k] == z'[p];
    q := lo + k;
  }

  lemma SwapRearranges(z: seq<Pair>, i: int, j: int)
    requires 0 <= i <= j < |z|
    ensures Rearranged(z, z[i := z[j]][j := z[i]], i, j + 1)
  {
    var z' := z[i := z[j]][j := z[i]];
    if i < j {
      assert z[i..j + 1] == [z[i]] + z[i + 1..j] + [z[j]];
      assert z'[i..j + 1] == [z[j]] + z[i + 1..j] + [z[i]];
    } else {
      assert z' == z;
    }
  }

  /** The two swaps that always go together. */
  method Swap(a: array<int>, t: array<int>, i: int, j: int)
    requires a != t && a.Length == t.Length && 0 <= i < a.Length && 0 <= j < a.Length
    modifies a, t
    ensures a[..] == old(a[..])[i := old(a[j])][j := old(a[i])]
    ensures t[..] == old(t[..])[i := old(t[j])][j := old(t[i])]
    ensures var lo, hi := if i < j then i else j, if i < j then j else i;
            Rearranged(Zip(old(a[..]), old(t[..])), Zip(a[..], t[..]), lo, hi + 1)
  {
    a[i], a[j] := a[j], a[i];
    t[i], t[j] := t[j], t[i];
    ghost var z := Zip(old(a[..]), old(t[..]));
    ghost var lo, hi := if i < j then i else j, if i < j then j else i;
    ZipSwap(old(a[..]), old(t[..]), i, j);
    ZipSwap(old(a[..]), old(t[..]), j, i);
    SwapRearranges(z, lo, hi);
  }

  lemma ZipSwap(a: seq<int>, t: seq<int>, i: int, j: int)
    requires |a| == |t| && 0 <= i < |a| && 0 <= j < |a|
    ensures var z := Zip(a, t); Zip(a[i := a[j]][j := a[i]], t[i := t[j]][j := t[i]]) == z[i := z[j]][j := z[i]]
    ensures a[i := a[j]][j := a[i]] == a[j := a[i]][i := a[j]] && t[i := t[j]][j := t[i]] == t[j := t[i]][i := t[j]]
  {
  }

  /** The contents of both arrays, pairwise. */
  ghost function Pairs(a: array<int>, t: array<int>): (z: seq<Pair>)
    requires a.Length == t.Length
    reads a, t
    ensures |z| == a.Length && forall p :: 0 <= p < |z| ==> z[p].key == a[p]
  {
    Zip(a[..], t[..])
  }

  /** The swap in terms of single elements. */
  method SwapPairs(a: array<int>, t: array<int>, i: int, j: int)
    requires a != t && a.Length == t.Length && 0 <= i < a.Length && 0 <= j < a.Length
    modifies a, t
    ensures a[i] == old(a[j]) && a[j] == old(a[i])
    ensures forall p :: 0 <= p < a.Length && p != i && p != j ==> a[p] == old(a[p])
    ensures var lo, hi := if i < j then i else j, if i < j then j else i;
            Rearranged(old(Pairs(a, t)), Pairs(a, t), lo, hi + 1)
  {
    hide Rearranged;
    Swap(a, t, i, j);
  }

  /** A swap inside a part that has been rearranged already. */
  method SwapIn(a: array<int>, t: array<int>, i: int, j: int, ghost z: seq<Pair>, ghost lo: int, ghost hi: int)
    requires a != t && a.Length == t.Length && 0 <= lo <= i < hi <= a.Length && lo <= j < hi
    requires Rearranged(z, Pairs(a, t), lo, hi)
    modifies a, t
    ensures a[i] == old(a[j]) && a[j] == old(a[i])
    ensures forall p :: 0 <= p < a.Length && p != i && p != j ==> a[p] == old(a[p])
    ensures Rearranged(z, Pairs(a, t), lo, hi)
  {
    hide Rearranged, Pairs;
    ghost var was := Pairs(a, t);
    SwapPairs(a, t, i, j);
    RearrangedWider(was, Pairs(a, t), if i < j then i else j, (if i < j then j else i) + 1, lo, hi);
    RearrangedTrans(z, was, Pairs(a, t), lo, hi);
  }

  ghost predicate Descending(a: array<int>, lo: int, hi: int)
    requires 0 <= lo <= hi <= a.Length
    reads a
  {
    forall p, q :: lo <= p < q < hi ==> a[p] >= a[q]
  }

  /** Element k moves down to its place among those from i on. */
  method InsertOne(a: array<int>, t: array<int>, i: int, k: int, ghost z: seq<Pair>, ghost hi: int)
    requires a != t && a.Length == t.Length && 0 <= i <= k < hi <= a.Length && Descending(a, i, k)
    requires Rearranged(z, Pairs(a, t), i, hi)
    modifies a, t
    ensures Descending(a, i, k + 1)
    ensures Rearranged(z, Pairs(a, t), i, hi)
  {
    hide Rearranged, Pairs;
    var m := k;
    while m > i && a[m] > a[m - 1]
      invariant i <= m <= k
      invariant forall p, q :: i <= p < q <= k && q != m ==> a[p] >= a[q]
      invariant Rearranged(z, Pairs(a, t), i, hi)
    {
      SwapIn(a, t, m, m - 1, z, i, hi);
      m := m - 1;
    }
  }

  /** inssort, on the part from i to j inclusive. */
  method InsSort(a: array<int>, t: array<int>, i: int, j: int)
    requires a != t && a.Length == t.Length && 0 <= i <= j + 1 && j < a.Length
    modifies a, t
    ensures Descending(a, i, j + 1)
    ensures Rearranged(old(Pairs(a, t)), Pairs(a, t), i, j + 1)
  {
    hide Rearranged, Pairs;
    ghost var z := Pairs(a, t);
    RearrangedSelf(z, i, j + 1);
    var k := i + 1;
    while k <= j
      invariant i + 1 <= k && (k <= j + 1 || k == i + 1)
      invariant Descending(a, i, if k <= j + 1 then k else j + 1)
      invariant Rearranged(z, Pairs(a, t), i, j + 1)
    {
      InsertOne(a, t, i, k, z, j + 1);
      k := k + 1;
    }
  }

  /** The first inner loop of partition. */
  method ScanUp(a: array<int>, l0: int, j: int, pivot: int) returns (l: int)
    requires -1 <= l0 < j < a.Length && exists p :: l0 < p <= j && a[p] <= pivot
    ensures l0 < l <= j && a[l] <= pivot
    ensures forall p :: l0 < p < l ==> a[p] > pivot
  {
    l := l0 + 1;
    while a[l] > pivot
      invariant l0 < l <= j
      invariant forall p :: l0 < p < l ==> a[p] > pivot
      decreases j - l
    {
      l := l + 1;
    }
  }

  /** The second inner loop; it stops at 0, or at an element that is not below the pivot. */
  method ScanDown(a: array<int>, r0: int, pivot: int) returns (r: int)
    requires 0 <= r0 < a.Length
    ensures 0 <= r <= r0 && (r0 > 0 ==> r < r0)
    ensures r == 0 || a[r] >= pivot
    ensures forall p :: r < p < r0 ==> a[p] < pivot
  {
    r := r0;
    if r == 0 {
      return;
    }
    r := r - 1;
    while r != 0 && a[r] < pivot
      invariant 0 <= r < r0
      invariant forall p :: r < p < r0 ==> a[p] < pivot
    {
      r := r - 1;
    }
  }

  lemma SwapTwice(s: seq<int>, i: int, j: int)
    requires 0 <= i < |s| && 0 <= j < |s|
    ensures var s' := s[i := s[j]][j := s[i]]; s'[i := s'[j]][j := s'[i]] == s
  {
  }

  /** A swap and the same swap again. */
  method SwapBack(a: array<int>, t: array<int>, i: int, j: int)
    requires a != t && a.Length == t.Length && 0 <= i < a.Length && 0 <= j < a.Length
    modifies a, t
    ensures forall p :: 0 <= p < a.Length ==> a[p] == old(a[p])
    ensures Pairs(a, t) == old(Pairs(a, t))
  {
    SwapTwice(a[..], i, j);
    SwapTwice(t[..], i, j);
    Swap(a, t, i, j);
    Swap(a, t, i, j);
  }

  /** partition, on the part from i to j inclusive whose last element is the pivot. The scan from the
      right may leave the part on the left, but then the two indices have met, and the swap outside
      the part is undone. */
  method Partition(a: array<int>, t: array<int>, i: int, j: int, pivot: int) returns (k: int)
    requires a != t && a.Length == t.Length && 0 <= i <= j < a.Length && a[j] == pivot
    modifies a, t
    ensures i <= k <= j && a[j] == pivot
    ensures forall p :: i <= p < k ==> a[p] >= pivot
    ensures forall p :: k <= p <= j ==> a[p] <= pivot
    ensures Rearranged(old(Pairs(a, t)), Pairs(a, t), i, j + 1)
  {
    hide Rearranged, Pairs;
    ghost var z := Pairs(a, t);
    RearrangedSelf(z, i, j + 1);
    var l, r := i - 1, j;
    while true
      invariant (l == i - 1 && r == j) || i <= l < r < j
      invariant a[j] == pivot && Rearranged(z, Pairs(a, t), i, j + 1)
      invariant forall p :: i <= p <= l ==> a[p] >= pivot
      invariant forall p :: r <= p <= j ==> a[p] <= pivot
      decreases r - l
    {
      l := ScanUp(a, l, j, pivot);
      r := ScanDown(a, r, pivot);
      if l >= r {
        k := l;
        SwapBack(a, t, l, r);
        return;
      }
      SwapIn(a, t, l, r, z, i, j + 1);
    }
  }

  /** The pivot from the middle goes to the end, the part is divided, and the pivot comes between. */
  method Divide(a: array<int>, t: array<int>, i: int, j: int) returns (k: int)
    requires a != t && a.Length == t.Length && 0 <= i <= j < a.Length
    modifies a, t
    ensures i <= k <= j
    ensures forall p :: i <= p < k ==> a[p] >= a[k]
    ensures forall p :: k <= p <= j ==> a[p] <= a[k]
    ensures Rearranged(old(Pairs(a, t)), Pairs(a, t), i, j + 1)
  {
    hide Rearranged, Pairs;
    ghost var z := Pairs(a, t);
    RearrangedSelf(z, i, j + 1);
    SwapIn(a, t, (i + j) / 2, j, z, i, j + 1);
    ghost var was := Pairs(a, t);
    k := Partition(a, t, i, j, a[j]);
    RearrangedTrans(z, was, Pairs(a, t), i, j + 1);
    SwapIn(a, t, k, j, z, i, j + 1);
  }

  /** The order after a part has been sorted again does not change how it compares with a bound. */
  lemma KeepsBound(z: seq<Pair>, z': seq<Pair>, lo: int, hi: int, b: int)
    requires Rearranged(z, z', lo, hi)
    ensures (forall p :: lo <= p < hi ==> z[p].key >= b) ==> forall p :: lo <= p < hi ==> z'[p].key >= b
    ensures (forall p :: lo <= p < hi ==> z[p].key <= b) ==> forall p :: lo <= p < hi ==> z'[p].key <= b
    ensures forall p :: 0 <= p < lo || hi <= p < |z| ==> z'[p] == z[p]
  {
    forall p | lo <= p < hi
      ensures exists q :: lo <= q < hi && z'[p] == z[q]
    {
      var q := RearrangedMember(z, z', lo, hi, p);
    }
    forall p | 0 <= p < lo || hi <= p < |z|
      ensures z'[p] == z[p]
    {
      if p < lo {
        assert z'[..lo][p] == z[..lo][p];
      } else {
        assert z'[hi..][p - hi] == z[hi..][p - hi];
      }
    }
  }

  /** One side of the pivot is sorted, in place and without looking at the other. */
  method SortSide(
        a: array<int>, t: array<int>, i: int, j: int, ghost b: int, ghost z: seq<Pair>, ghost lo: int, ghost hi: int)
    requires a != t && a.Length == t.Length && 0 <= lo <= i <= j + 1 <= hi <= a.Length
    requires Rearranged(z, Pairs(a, t), lo, hi)
    modifies a, t
    ensures Descending(a, i, j + 1) && Rearranged(z, Pairs(a, t), lo, hi)
    ensures old(forall p :: i <= p <= j ==> a[p] >= b) ==> forall p :: i <= p <= j ==> a[p] >= b
    ensures old(forall p :: i <= p <= j ==> a[p] <= b) ==> forall p :: i <= p <= j ==> a[p] <= b
    ensures forall p :: 0 <= p < a.Length && !(i <= p <= j) ==> a[p] == old(a[p])
    decreases j - i + 1, 1
  {
    hide Rearranged, Pairs;
    ghost var was := Pairs(a, t);
    if j - i > 0 {
      Sort(a, t, i, j);
    } else {
      RearrangedSelf(was, i, j + 1);
    }
    KeepsBound(was, Pairs(a, t), i, j + 1, b);
    RearrangedWider(was, Pairs(a, t), i, j + 1, lo, hi);
    RearrangedTrans(z, was, Pairs(a, t), lo, hi);
  }

  /** sort, on the part from i to j inclusive: descending, and both arrays permuted alike. */
  method Sort(a: array<int>, t: array<int>, i: int, j: int)
    requires a != t && a.Length == t.Length && 0 <= i <= j + 1 && j < a.Length
    modifies a, t
    ensures Descending(a, i, j + 1)
    ensures Rearranged(old(Pairs(a, t)), Pairs(a, t), i, j + 1)
    decreases j - i + 1, 0
  {
    hide Rearranged, Pairs;
    if j - i < SORTHRESH {
      InsSort(a, t, i, j);
    } else {
      ghost var z := Pairs(a, t);
      var k := Divide(a, t, i, j);
      ghost var pivot := a[k];
      SortSide(a, t, i, k - 1, pivot, z, i, j + 1);
      SortSide(a, t, k + 1, j, pivot, z, i, j + 1);
    }
  }
}
