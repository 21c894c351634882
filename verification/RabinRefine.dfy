/** The refinement loop around the search for cuts. */
module RabinRefine {
  import opened Rabin

  /** The pieces one after another. */
  function Join(pieces: seq<seq<Uchar>>): seq<Uchar> {
    if pieces == [] then [] else pieces[0] + Join(pieces[1..])
  }

  /** The pieces end at the first cut of what is left, each time. */
  ghost predicate CutUp(pieces: seq<seq<Uchar>>, whole: seq<Uchar>, reach: nat, irr: bv32) {
    && pieces != []
    && pieces[0] <= whole && IsCut(whole, reach, irr, |pieces[0]|)
    && if |pieces| == 1 then pieces[0] == whole
       else |pieces[0]| < |whole| && CutUp(pieces[1..], whole[|pieces[0]|..], reach, irr)
  }

  /** Whatever cuts up the rest, the pieces so far and it cut up the whole. */
  ghost predicate Continues(pieces: seq<seq<Uchar>>, rest: seq<Uchar>, whole: seq<Uchar>, reach: nat, irr: bv32) {
    forall more :: CutUp(more, rest, reach, irr) ==> CutUp(pieces + more, whole, reach, irr)
  }

  lemma ContinuesBegin(whole: seq<Uchar>, reach: nat, irr: bv32)
    ensures Continues([], whole, whole, reach, irr)
  {
    assert forall more: seq<seq<Uchar>> :: [] + more == more;
  }

  lemma ContinuesCut(pieces: seq<seq<Uchar>>, rest: seq<Uchar>, whole: seq<Uchar>, reach: nat, irr: bv32, offset: nat)
    requires Continues(pieces, rest, whole, reach, irr) && offset < |rest| && IsCut(rest, reach, irr, offset)
    ensures Continues(pieces + [rest[..offset]], rest[offset..], whole, reach, irr)
  {
    hide IsCut;
    forall more | CutUp(more, rest[offset..], reach, irr)
      ensures CutUp(pieces + [rest[..offset]] + more, whole, reach, irr)
    {
      var next := [rest[..offset]] + more;
      assert next[1..] == more && next[0] == rest[..offset];
      assert pieces + next == pieces + [rest[..offset]] + more;
    }
  }

  lemma ContinuesEnd(pieces: seq<seq<Uchar>>, rest: seq<Uchar>, whole: seq<Uchar>, reach: nat, irr: bv32)
    requires Continues(pieces, rest, whole, reach, irr) && IsCut(rest, reach, irr, |rest|)
    ensures CutUp(pieces + [rest], whole, reach, irr)
  {
    hide IsCut;
    assert CutUp([rest], rest, reach, irr);
  }

  /** One coarse piece through the loop of FragmentRefine: it ends, loses no byte and makes no empty
      chunk. */
  method Refine(whole: seq<Uchar>, winlen: int) returns (pieces: seq<seq<Uchar>>)
    requires whole != []
    ensures CutUp(pieces, whole, Reach(winlen), IRRPOLY)
  {
    hide CutUp, Continues, IsRedTab, IsWinTab, IsCut;
    var redtab, wintab := new bv32[256], new bv32[256];
    RabinInit(winlen, redtab, wintab);
    pieces := [];
    var rest := whole;
    ContinuesBegin(whole, Reach(winlen), IRRPOLY);
    while true
      invariant rest != [] && IsRedTab(redtab[..], IRRPOLY) && IsWinTab(wintab[..], Reach(winlen), IRRPOLY)
      invariant Continues(pieces, rest, whole, Reach(winlen), IRRPOLY)
      decreases |rest|
    {
      var offset := RabinSeg(rest, redtab, wintab, Reach(winlen), IRRPOLY);
      if offset < |rest| {
        ContinuesCut(pieces, rest, whole, Reach(winlen), IRRPOLY, offset);
        pieces := pieces + [rest[..offset]];
        rest := rest[offset..];
      } else {
        CutInside(rest, Reach(winlen), IRRPOLY, offset);
        ContinuesEnd(pieces, rest, whole, Reach(winlen), IRRPOLY);
        pieces := pieces + [rest];
        return;
      }
    }
  }

  lemma CutInside(p: seq<Uchar>, reach: nat, irr: bv32, r: nat)
    requires IsCut(p, reach, irr, r)
    ensures r <= |p|
  {
  }

  /** However the tables were built, the pieces are the whole, none is empty, and all but the last
      are at least a window long. */
  lemma {:induction false} CutUpLosesNothing(pieces: seq<seq<Uchar>>, whole: seq<Uchar>, reach: nat, irr: bv32)
    requires CutUp(pieces, whole, reach, irr) && whole != []
    ensures Join(pieces) == whole
    ensures forall i :: 0 <= i < |pieces| ==> pieces[i] != []
    ensures forall i :: 0 <= i < |pieces| - 1 ==> |pieces[i]| >= NWINDOW
    decreases |pieces|
  {
    if |pieces| == 1 {
      assert pieces[1..] == [];
    } else {
      var n := |pieces[0]|;
      assert whole == whole[..n] + whole[n..];
      CutUpLosesNothing(pieces[1..], whole[n..], reach, irr);
    }
  }

  /** The content alone decides the pieces. */
  lemma {:induction false} CutUpUnique(a: seq<seq<Uchar>>, b: seq<seq<Uchar>>, whole: seq<Uchar>, reach: nat, irr: bv32)
    requires CutUp(a, whole, reach, irr) && CutUp(b, whole, reach, irr)
    ensures a == b
    decreases |a|
  {
    assert |a[0]| == |b[0]| && a[0] == whole[..|a[0]|] && b[0] == whole[..|b[0]|];
    assert |a| == 1 <==> |b| == 1;
    assert a == [a[0]] + a[1..] && b == [b[0]] + b[1..];
    if |a| > 1 && |b| > 1 {
      CutUpUnique(a[1..], b[1..], whole[|a[0]|..], reach, irr);
    }
  }

  /** The refinement does not bound the length of a chunk: some strings of every length stay whole. */
  lemma UncutPiece(n: nat, reach: nat, irr: bv32) returns (p: seq<Uchar>)
    ensures |p| == n && forall pieces :: CutUp(pieces, p, reach, irr) <==> pieces == [p]
  {
    hide Rolling, Hit;
    p := NoCutInput(n, reach, irr);
    assert CutUp([p], p, reach, irr);
    forall pieces | CutUp(pieces, p, reach, irr)
      ensures pieces == [p]
    {
      CutUpUnique(pieces, [p], p, reach, irr);
    }
  }

  /** With the window length NWINDOW a position is a cut or not by its last NWINDOW bytes alone, in
      whatever string and at whatever place they occur. */
  lemma CutsAreLocal(p: seq<Uchar>, i: nat, q: seq<Uchar>, j: nat, irr: bv32)
    requires NWINDOW <= i <= |p| && NWINDOW <= j <= |q| && Window(p, i) == Window(q, j)
    ensures Hit(Rolling(p, i, Reach(NWINDOW), irr)) <==> Hit(Rolling(q, j, Reach(NWINDOW), irr))
  {
    hide Hit, Rolling, Hash;
    RollingIsWindow(p, i, irr);
    RollingIsWindow(q, j, irr);
  }
}
