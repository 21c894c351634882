/** SplitStream: the places where the encoder of encoder_task.h cuts the input into coarse pieces. */
module TaskFragment {
  import opened Chunks
  import Rabin

  const ANCHOR_JUMP: nat := 2097152
  const TASK_CUTOFF_PARALLEL_FRAGMENT: nat := 1

  /** The search for a cut between two places of the input: how far from the first it is, or the whole way. */
  type Search = (nat, nat) -> nat

  ghost predicate SearchOk(seg: Search) { forall lo: nat, hi: nat :: lo < hi ==> 0 < seg(lo, hi) <= hi - lo }

  /** What one turn of the loop of a leaf does with its head: it goes to the cut it finds, if any. */
  function Turn(seg: Search, at: nat, size: nat, head: nat): (h: nat)
    requires size > ANCHOR_JUMP + head
  {
    var offset := seg(at + head + ANCHOR_JUMP, at + size);
    if offset != 0 && head + offset + ANCHOR_JUMP < size then head + offset + ANCHOR_JUMP else head
  }

  /** The offsets that a leaf finds from head on; None if its loop never ends. */
  function Leaf(seg: Search, at: nat, size: nat, head: nat): Option<seq<nat>>
    decreases size - head
  {
    if size <= ANCHOR_JUMP + head || seg(at + head + ANCHOR_JUMP, at + size) == 0 then Some([])
    else
      var h := Turn(seg, at, size, head);
      if h == head then None
      else
        match Leaf(seg, at, size, h)
        case None => None
        case Some(r) => Some([h] + r)
  }

  /** The pieces of SplitStream that it does not halve further are short enough for one jump, or there is
      a cut behind the jump and before the end. */
  predicate CutsEnough(seg: Search, at: nat, size: nat)
    decreases size
  {
    if size < ANCHOR_JUMP * 2 * TASK_CUTOFF_PARALLEL_FRAGMENT then
      size <= ANCHOR_JUMP || seg(at + ANCHOR_JUMP, at + size) < size - ANCHOR_JUMP
    else CutsEnough(seg, at, size / 2) && CutsEnough(seg, at + size / 2, size - size / 2)
  }

  /** The loop of a leaf ends exactly if the leaf is no longer than one jump or has a cut behind it;
      otherwise it comes back to the same state for ever. */
  lemma LeafReturns(seg: Search, at: nat, size: nat)
    requires SearchOk(seg) && size < ANCHOR_JUMP * 2 * TASK_CUTOFF_PARALLEL_FRAGMENT
    ensures Leaf(seg, at, size, 0).Some? <==> CutsEnough(seg, at, size)
  {
    if size > ANCHOR_JUMP {
      var h := Turn(seg, at, size, 0);
      assert h != 0 ==> Leaf(seg, at, size, h) == Some([]);
    }
  }

  function Shifted(s: seq<nat>, delta: nat): (r: seq<nat>)
    ensures |r| == |s| && forall i :: 0 <= i < |r| ==> r[i] == s[i] + delta
  {
    seq(|s|, (i: nat) requires i < |s| => s[i] + delta)
  }

  function Offsets(seg: Search, at: nat, size: nat): Option<seq<nat>>
    decreases size
  {
    if size < ANCHOR_JUMP * 2 * TASK_CUTOFF_PARALLEL_FRAGMENT then Leaf(seg, at, size, 0)
    else
      match (Offsets(seg, at, size / 2), Offsets(seg, at + size / 2, size - size / 2))
      case (Some(a), Some(b)) => Some(a + Shifted(b, size / 2))
      case _ => None
  }

  /** SplitStream returns exactly if there are cuts enough. */
  lemma {:induction false} SplitReturns(seg: Search, at: nat, size: nat)
    requires SearchOk(seg)
    ensures Offsets(seg, at, size).Some? <==> CutsEnough(seg, at, size)
    decreases size
  {
    hide SearchOk, Leaf;
    if size < ANCHOR_JUMP * 2 * TASK_CUTOFF_PARALLEL_FRAGMENT {
      LeafReturns(seg, at, size);
    } else {
      SplitReturns(seg, at, size / 2);
      SplitReturns(seg, at + size / 2, size - size / 2);
    }
  }

  /** The search of a stream without any cut. */
  function NoCuts(lo: nat, hi: nat): nat { if lo < hi then hi - lo else 0 }

  /** Without cuts SplitStream does not return from an input longer than one jump but not two. */
  lemma UncutNeverReturns(at: nat, size: nat)
    requires ANCHOR_JUMP < size < ANCHOR_JUMP * 2 * TASK_CUTOFF_PARALLEL_FRAGMENT
    ensures SearchOk(NoCuts) && !CutsEnough(NoCuts, at, size) && Offsets(NoCuts, at, size) == None
  {
    SplitReturns(NoCuts, at, size);
  }

  /** The search is the one for Rabin fingerprints in the bytes of data. */
  ghost predicate SearchesIn(seg: Search, data: seq<Rabin.Uchar>, reach: nat, irr: bv32) {
    forall lo: nat, hi: nat :: lo <= hi <= |data| ==> Rabin.IsCut(data[lo..hi], reach, irr, seg(lo, hi))
  }

  /** Whatever the bytes are, SplitStream does not return if no more than a window is left behind the first
      jump: there is no room for a cut. */
  lemma ShortTailNeverReturns(seg: Search, data: seq<Rabin.Uchar>, reach: nat, irr: bv32, at: nat, size: nat)
    requires SearchOk(seg) && SearchesIn(seg, data, reach, irr) && at + size <= |data|
    requires ANCHOR_JUMP < size <= ANCHOR_JUMP + Rabin.NWINDOW
    ensures !CutsEnough(seg, at, size) && Offsets(seg, at, size) == None
  {
    hide SearchOk, Leaf, Rabin.Rolling, Rabin.Hit;
    assert Rabin.IsCut(data[at + ANCHOR_JUMP..at + size], reach, irr, seg(at + ANCHOR_JUMP, at + size));
    SplitReturns(seg, at, size);
  }

  /** Strictly increasing, behind one place and before another. */
  predicate Increasing(s: seq<nat>, lo: nat, hi: nat) {
    && (forall i :: 0 <= i < |s| ==> lo < s[i] < hi)
    && forall i, j :: 0 <= i < j < |s| ==> s[i] < s[j]
  }

  lemma IncreasingAppend(a: seq<nat>, b: seq<nat>, lo: nat, mid: nat, hi: nat)
    requires Increasing(a, lo, mid) && Increasing(b, mid, hi) && lo <= mid <= hi
    ensures Increasing(a + b, lo, hi)
  {
  }

  lemma {:induction false} LeafIncreasing(seg: Search, at: nat, size: nat, head: nat)
    requires Leaf(seg, at, size, head).Some?
    ensures Increasing(Leaf(seg, at, size, head).value, head, size)
    ensures |Leaf(seg, at, size, head).value| * ANCHOR_JUMP <= if size >= head then size - head else 0
    decreases size - head
  {
    if size > ANCHOR_JUMP + head && seg(at + head + ANCHOR_JUMP, at + size) != 0 {
      var h := Turn(seg, at, size, head);
      LeafIncreasing(seg, at, size, h);
    }
  }

  /** Whenever SplitStream returns, its offsets rise strictly inside the input. */
  lemma {:induction false} OffsetsIncreasing(seg: Search, at: nat, size: nat)
    requires Offsets(seg, at, size).Some?
    ensures Increasing(Offsets(seg, at, size).value, 0, size)
    decreases size
  {
    if size < ANCHOR_JUMP * 2 * TASK_CUTOFF_PARALLEL_FRAGMENT {
      LeafIncreasing(seg, at, size, 0);
    } else {
      OffsetsIncreasing(seg, at, size / 2);
      OffsetsIncreasing(seg, at + size / 2, size - size / 2);
      IncreasingAppend(Offsets(seg, at, size / 2).value,
          Shifted(Offsets(seg, at + size / 2, size - size / 2).value, size / 2), 0, size / 2, size);
    }
  }

  /** What SplitStream does not halve further: a part of the input. */
  datatype Part = Part(lo: nat, hi: nat)

  function Parts(lo: nat, hi: nat): seq<Part>
    requires lo <= hi
    decreases hi - lo
  {
    if hi - lo < 2 * ANCHOR_JUMP then [Part(lo, hi)]
    else Parts(lo, lo + (hi - lo) / 2) + Parts(lo + (hi - lo) / 2, hi)
  }

  /** The parts follow each other from lo to hi. */
  predicate Tiles(ps: seq<Part>, lo: nat, hi: nat) {
    && ps != [] && ps[0].lo == lo && ps[|ps| - 1].hi == hi
    && (forall k :: 0 <= k < |ps| ==> ps[k].lo <= ps[k].hi)
    && forall k :: 0 < k < |ps| ==> ps[k].lo == ps[k - 1].hi
  }

  predicate InSize(ps: seq<Part>, least: nat, most: nat) {
    forall k :: 0 <= k < |ps| ==> least <= ps[k].hi - ps[k].lo < most
  }

  lemma TilesAppend(a: seq<Part>, b: seq<Part>, lo: nat, mid: nat, hi: nat)
    requires Tiles(a, lo, mid) && Tiles(b, mid, hi)
    ensures Tiles(a + b, lo, hi)
  {
  }

  /** They cover the input, none is as long as two jumps, and each is at least as long as one if there is
      more than one. */
  lemma {:induction false} PartsTile(lo: nat, hi: nat)
    requires lo <= hi
    ensures Tiles(Parts(lo, hi), lo, hi)
    ensures InSize(Parts(lo, hi), if hi - lo >= 2 * ANCHOR_JUMP then ANCHOR_JUMP else hi - lo, 2 * ANCHOR_JUMP)
    decreases hi - lo
  {
    hide Tiles;
    if hi - lo >= 2 * ANCHOR_JUMP {
      var mid := lo + (hi - lo) / 2;
      PartsTile(lo, mid);
      PartsTile(mid, hi);
      TilesAppend(Parts(lo, mid), Parts(mid, hi), lo, mid, hi);
    } else {
      OneTile(lo, hi);
    }
  }

  lemma OneTile(lo: nat, hi: nat)
    requires lo <= hi
    ensures Tiles([Part(lo, hi)], lo, hi)
  {
  }

  predicate Long(part: Part) { part.lo + ANCHOR_JUMP < part.hi }

  /** Where the search in a part ends that starts one jump behind its beginning. */
  function SearchEnd(seg: Search, at: nat, part: Part): nat {
    part.lo + ANCHOR_JUMP + seg(at + part.lo + ANCHOR_JUMP, at + part.hi)
  }

  predicate EndOfSome(seg: Search, at: nat, ps: seq<Part>, o: nat) {
    exists k :: 0 <= k < |ps| && Long(ps[k]) && o == SearchEnd(seg, at, ps[k])
  }

  predicate AllEndInside(seg: Search, at: nat, ps: seq<Part>) {
    forall k :: 0 <= k < |ps| && Long(ps[k]) ==> SearchEnd(seg, at, ps[k]) < ps[k].hi
  }

  function LongOnes(ps: seq<Part>): nat {
    if ps == [] then 0 else LongOnes(ps[..|ps| - 1]) + (if Long(ps[|ps| - 1]) then 1 else 0)
  }

  lemma {:induction false} LongAppend(a: seq<Part>, b: seq<Part>)
    ensures LongOnes(a + b) == LongOnes(a) + LongOnes(b)
  {
    if b == [] {
      assert a + b == a;
    } else {
      var n := |b| - 1;
      assert (a + b)[..|a| + n] == a + b[..n];
      LongAppend(a, b[..n]);
    }
  }

  lemma EndsAppend(seg: Search, at: nat, a: seq<Part>, b: seq<Part>)
    ensures AllEndInside(seg, at, a + b) <==> AllEndInside(seg, at, a) && AllEndInside(seg, at, b)
    ensures forall o: nat :: EndOfSome(seg, at, a + b, o) <==> EndOfSome(seg, at, a, o) || EndOfSome(seg, at, b, o)
  {
    hide SearchEnd, Long;
    var c := a + b;
    assert forall k :: 0 <= k < |a| ==> c[k] == a[k];
    assert forall k :: 0 <= k < |b| ==> b[k] == c[|a| + k];
  }

  /** Cuts enough: the search in every long part ends before the part does. */
  lemma {:induction false} CutsEnoughIff(seg: Search, at: nat, lo: nat, hi: nat)
    requires lo <= hi
    ensures CutsEnough(seg, at + lo, hi - lo) <==> AllEndInside(seg, at, Parts(lo, hi))
    decreases hi - lo
  {
    if hi - lo >= 2 * ANCHOR_JUMP {
      hide AllEndInside;
      var mid := lo + (hi - lo) / 2;
      CutsEnoughIff(seg, at, lo, mid);
      CutsEnoughIff(seg, at, mid, hi);
      EndsAppend(seg, at, Parts(lo, mid), Parts(mid, hi));
    } else {
      assert [Part(lo, hi)][0] == Part(lo, hi);
    }
  }

  lemma LeafOffset(seg: Search, at: nat, size: nat)
    requires SearchOk(seg) && CutsEnough(seg, at, size) && size < 2 * ANCHOR_JUMP
    ensures Leaf(seg, at, size, 0) ==
            Some(if size > ANCHOR_JUMP then [ANCHOR_JUMP + seg(at + ANCHOR_JUMP, at + size)] else [])
  {
    if size > ANCHOR_JUMP {
      var h := ANCHOR_JUMP + seg(at + ANCHOR_JUMP, at + size);
      assert Turn(seg, at, size, 0) == h;
      assert Leaf(seg, at, size, h) == Some([]);
      assert Leaf(seg, at, size, 0) == Some([h] + []) && [h] + [] == [h];
    }
  }

  /** When SplitStream returns, its offsets are exactly the ends of the searches in the long parts, one for
      each of them. */
  lemma {:induction false} OffsetsAre(seg: Search, at: nat, lo: nat, hi: nat)
    requires SearchOk(seg) && lo <= hi && AllEndInside(seg, at, Parts(lo, hi))
    ensures Offsets(seg, at + lo, hi - lo).Some?
    ensures forall o: nat ::
              EndOfSome(seg, at, Parts(lo, hi), o) <==> o >= lo && o - lo in Offsets(seg, at + lo, hi - lo).value
    ensures |Offsets(seg, at + lo, hi - lo).value| == LongOnes(Parts(lo, hi))
    decreases hi - lo
  {
    hide SearchOk, Leaf, EndOfSome, AllEndInside, LongOnes, Shifted;
    if hi - lo < 2 * ANCHOR_JUMP {
      CutsEnoughIff(seg, at, lo, hi);
      LeafOffset(seg, at + lo, hi - lo);
      OnePart(seg, at, lo, hi);
    } else {
      var mid := lo + (hi - lo) / 2;
      EndsAppend(seg, at, Parts(lo, mid), Parts(mid, hi));
      OffsetsAre(seg, at, lo, mid);
      OffsetsAre(seg, at, mid, hi);
      LongAppend(Parts(lo, mid), Parts(mid, hi));
      var a, b := Offsets(seg, at + lo, mid - lo).value, Offsets(seg, at + mid, hi - mid).value;
      forall o: nat
        ensures EndOfSome(seg, at, Parts(lo, hi), o) <==> o >= lo && o - lo in a + Shifted(b, mid - lo)
      {
        if o >= lo {
          InShifted(b, mid - lo, o - lo);
        }
      }
    }
  }

  lemma OnePart(seg: Search, at: nat, lo: nat, hi: nat)
    requires lo <= hi < lo + 2 * ANCHOR_JUMP
    ensures Parts(lo, hi) == [Part(lo, hi)] && LongOnes(Parts(lo, hi)) == (if hi - lo > ANCHOR_JUMP then 1 else 0)
    ensures forall o: nat :: EndOfSome(seg, at, Parts(lo, hi), o) <==>
            hi - lo > ANCHOR_JUMP && o == lo + ANCHOR_JUMP + seg(at + lo + ANCHOR_JUMP, at + hi)
  {
    assert [Part(lo, hi)][0] == Part(lo, hi);
  }

  lemma InShifted(b: seq<nat>, delta: nat, o: nat)
    ensures o in Shifted(b, delta) <==> o >= delta && o - delta in b
  {
    if o >= delta && o - delta in b {
      var i :| 0 <= i < |b| && b[i] == o - delta;
      assert Shifted(b, delta)[i] == o;
    }
  }

  lemma RoomForOffsets(n: nat, size: nat)
    requires n * ANCHOR_JUMP <= size
    ensures n <= size / ANCHOR_JUMP
  {
  }

  /** A turn of a loop that will end: there is a cut, and it is the next offset. */
  lemma LeafTurn(seg: Search, at: nat, size: nat, head: nat)
    requires SearchOk(seg) && size > ANCHOR_JUMP + head && Leaf(seg, at, size, head).Some?
    ensures var offset := seg(at + head + ANCHOR_JUMP, at + size);
            && offset != 0 && head + offset + ANCHOR_JUMP < size
            && Leaf(seg, at, size, head + offset + ANCHOR_JUMP).Some?
            && Leaf(seg, at, size, head).value == [head + offset + ANCHOR_JUMP] +
                 Leaf(seg, at, size, head + offset + ANCHOR_JUMP).value
  {
  }

  lemma LeafEnd(seg: Search, at: nat, size: nat, head: nat)
    ensures size <= ANCHOR_JUMP + head ==> Leaf(seg, at, size, head) == Some([])
  {
  }

  /** The leaf of SplitStream, for inputs with cuts enough. The array has room for all offsets. */
  method SplitLeaf(seg: Search, at: nat, size: nat) returns (offsets: array<nat>, len: nat)
    requires SearchOk(seg) && CutsEnough(seg, at, size)
    requires size < ANCHOR_JUMP * 2 * TASK_CUTOFF_PARALLEL_FRAGMENT
    ensures Leaf(seg, at, size, 0).Some?
    ensures fresh(offsets) && offsets.Length == size / ANCHOR_JUMP && len <= offsets.Length
    ensures offsets[..len] == Leaf(seg, at, size, 0).value
  {
    hide Leaf, SearchOk;
    LeafReturns(seg, at, size);
    ghost var all := Leaf(seg, at, size, 0).value;
    LeafIncreasing(seg, at, size, 0);
    RoomForOffsets(|all|, size);
    offsets := new nat[size / ANCHOR_JUMP];
    len := 0;
    var head := 0;
    while size > ANCHOR_JUMP + head
      invariant Leaf(seg, at, size, head).Some? && len <= |all|
      invariant offsets[..len] + Leaf(seg, at, size, head).value == all
      decreases size - head
    {
      LeafTurn(seg, at, size, head);
      var offset := seg(at + head + ANCHOR_JUMP, at + size);
      if offset == 0 {
        break;
      } else if head + offset + ANCHOR_JUMP < size {
        head := head + offset + ANCHOR_JUMP;
        assert all[len] == head;
        offsets[len] := head;
        len := len + 1;
      }
    }
    LeafEnd(seg, at, size, head);
  }

  /** SplitStream, for inputs with cuts enough. */
  method SplitStream(seg: Search, at: nat, size: nat) returns (offsets: array<nat>, len: nat)
    requires SearchOk(seg) && CutsEnough(seg, at, size)
    ensures Offsets(seg, at, size).Some?
    ensures fresh(offsets) && len <= offsets.Length && offsets[..len] == Offsets(seg, at, size).value
    decreases size
  {
    if size < ANCHOR_JUMP * 2 * TASK_CUTOFF_PARALLEL_FRAGMENT {
      offsets, len := SplitLeaf(seg, at, size);
    } else {
      var a, n := SplitStream(seg, at, size / 2);
      var b, m := SplitStream(seg, at + size / 2, size - size / 2);
      offsets, len := Joined(a, n, b, m, size / 2);
    }
  }

  /** The offsets of both halves, those of the second moved. */
  method Joined(a: array<nat>, n: nat, b: array<nat>, m: nat, delta: nat) returns (offsets: array<nat>, len: nat)
    requires n <= a.Length && m <= b.Length
    ensures fresh(offsets) && len <= offsets.Length && offsets[..len] == a[..n] + Shifted(b[..m], delta)
  {
    offsets := new nat[n + m];
    len := 0;
    for i := 0 to n
      invariant len == i && offsets[..len] == a[..i]
    {
      offsets[len] := a[i];
      len := len + 1;
    }
    for i := 0 to m
      invariant len == n + i && offsets[..len] == a[..n] + Shifted(b[..m], delta)[..i]
    {
      offsets[len] := b[i] + delta;
      len := len + 1;
    }
  }

  /** The pieces of Fragment: up to each offset in turn, and to the end of the input. */
  function Ends(offsets: seq<nat>, size: nat): seq<nat> { if size == 0 then offsets else offsets + [size] }

  /** Every piece but none before it reaches further, so each has at least one byte,
      and the last ends with the input. */
  lemma EndsRise(seg: Search, size: nat)
    requires SearchOk(seg) && CutsEnough(seg, 0, size)
    ensures Offsets(seg, 0, size).Some?
    ensures Increasing(Ends(Offsets(seg, 0, size).value, size), 0, size + 1)
    ensures size > 0 ==> Ends(Offsets(seg, 0, size).value, size)[|Offsets(seg, 0, size).value|] == size
    ensures size == 0 ==> Ends(Offsets(seg, 0, size).value, size) == []
  {
    hide Offsets, SearchOk, CutsEnough;
    SplitReturns(seg, 0, size);
    OffsetsIncreasing(seg, 0, size);
    var o := Offsets(seg, 0, size).value;
    assert o != [] ==> 0 < o[0] < size;
  }
}
