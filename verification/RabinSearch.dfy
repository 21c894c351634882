/** The search for Rabin fingerprints in strings of bytes, as the encoder calls it: with the window length 0. */
module RabinSearch {
  import opened Chunks
  import opened Rabin
  import opened RabinRefine
  import opened CutSearch

  function Word(b: Byte): Uchar { b as bv32 }

  function Words(b: Bytes): (w: seq<Uchar>)
    ensures |w| == |b| && forall i :: 0 <= i < |b| ==> w[i] == Word(b[i])
  {
    seq(|b|, (i: nat) requires i < |b| => Word(b[i]))
  }

  function FirstHit(p: seq<Uchar>, i: nat, reach: nat, irr: bv32): (r: nat)
    requires i <= |p|
    ensures i <= r <= |p| && (r < |p| ==> Hit(Rolling(p, r, reach, irr)))
    ensures forall j :: i <= j < r ==> !Hit(Rolling(p, j, reach, irr))
    decreases |p| - i
  {
    if i == |p| || Hit(Rolling(p, i, reach, irr)) then i else FirstHit(p, i + 1, reach, irr)
  }

  /** rabinseg in the encoder. */
  function RabinCut(b: Bytes): nat {
    if |b| < NWINDOW then |b| else FirstHit(Words(b), NWINDOW, Reach(0), IRRPOLY)
  }

  /** It is where the method that stands for rabinseg ends, and nowhere else. */
  lemma RabinCutIs(b: Bytes, r: nat)
    ensures IsCut(Words(b), Reach(0), IRRPOLY, RabinCut(b))
    ensures IsCut(Words(b), Reach(0), IRRPOLY, r) ==> r == RabinCut(b)
  {
    hide Hit, Rolling, Words;
  }

  lemma RabinOk()
    ensures SearchOk(RabinCut)
  {
  }

  lemma RabinStable()
    ensures Stable(RabinCut)
  {
    forall a: Bytes, b: Bytes | a != []
      ensures StableAt(RabinCut, a, b)
    {
      RabinStableAt(a, b);
    }
  }

  lemma RabinStableAt(a: Bytes, b: Bytes)
    requires a != []
    ensures StableAt(RabinCut, a, b)
  {
    hide Hit, Rolling;
    var r, r' := RabinCut(a), RabinCut(a + b);
    forall i: nat | i <= |a|
      ensures Rolling(Words(a + b), i, Reach(0), IRRPOLY) == Rolling(Words(a), i, Reach(0), IRRPOLY)
    {
      assert Words(a + b)[..i] == Words(a)[..i];
      RollingPrefix(Words(a + b), Words(a), i, Reach(0), IRRPOLY);
    }
    if |a| >= NWINDOW {
      assert !(r' < r);
      assert r < |a| ==> !(r < r');
    }
  }

  function WordPieces(ds: seq<Bytes>): (ps: seq<seq<Uchar>>)
    ensures |ps| == |ds| && forall i :: 0 <= i < |ds| ==> ps[i] == Words(ds[i])
  {
    seq(|ds|, (i: nat) requires i < |ds| => Words(ds[i]))
  }

  /** The refinement loop of RabinRefine makes these cuts and no others. */
  lemma {:induction false} RefineCuts(b: Bytes, pieces: seq<seq<Uchar>>)
    requires b != []
    ensures CutUp(pieces, Words(b), Reach(0), IRRPOLY) <==> pieces == WordPieces(Cuts(RabinCut, b))
  {
    hide CutUp;
    var ps := WordPieces(Cuts(RabinCut, b));
    CutsCutUp(b);
    if CutUp(pieces, Words(b), Reach(0), IRRPOLY) {
      CutUpUnique(pieces, ps, Words(b), Reach(0), IRRPOLY);
    }
  }

  lemma {:induction false} CutsCutUp(b: Bytes)
    requires b != []
    ensures CutUp(WordPieces(Cuts(RabinCut, b)), Words(b), Reach(0), IRRPOLY)
    decreases |b|
  {
    hide RabinCut, Words, WordPieces, IsCut, CutUp;
    var r := RabinCut(b);
    RabinCutIs(b, r);
    RabinOk();
    if r < |b| {
      CutsCutUp(b[r..]);
      var more := WordPieces(Cuts(RabinCut, b[r..]));
      FirstPiece(b, r, Cuts(RabinCut, b[r..]));
      CutUpFirst(Words(b), r, more);
    } else {
      OnePiece(b);
      CutUpOne(Words(b));
    }
  }

  lemma FirstPiece(b: Bytes, r: nat, more: seq<Bytes>)
    requires r <= |b|
    ensures Words(b)[r..] == Words(b[r..])
    ensures WordPieces([b[..r]] + more) == [Words(b)[..r]] + WordPieces(more)
  {
    hide Word;
    assert Words(b)[..r] == Words(b[..r]);
  }

  lemma OnePiece(b: Bytes)
    ensures WordPieces([b]) == [Words(b)]
  {
  }

  lemma CutUpFirst(w: seq<Uchar>, r: nat, more: seq<seq<Uchar>>)
    requires r < |w| && IsCut(w, Reach(0), IRRPOLY, r) && CutUp(more, w[r..], Reach(0), IRRPOLY)
    ensures CutUp([w[..r]] + more, w, Reach(0), IRRPOLY)
  {
    hide IsCut;
    assert ([w[..r]] + more)[1..] == more;
  }

  lemma CutUpOne(w: seq<Uchar>)
    requires IsCut(w, Reach(0), IRRPOLY, |w|)
    ensures CutUp([w], w, Reach(0), IRRPOLY)
  {
    hide IsCut;
  }

  /** No cut is possible behind the i-th byte. */
  predicate Uncut(b: Bytes, i: nat)
    requires i <= |b|
  {
    !Hit(Rolling(Words(b), i, Reach(0), IRRPOLY))
  }

  lemma UncutPrefix(a: Bytes, b: Bytes, i: nat)
    requires i <= |a| && i <= |b| && a[..i] == b[..i]
    ensures Uncut(a, i) <==> Uncut(b, i)
  {
    hide Hit, Rolling;
    assert Words(a)[..i] == Words(b)[..i] by {
      assert forall j :: 0 <= j < i ==> a[j] == a[..i][j] && b[j] == b[..i][j];
    }
    RollingPrefix(Words(a), Words(b), i, Reach(0), IRRPOLY);
  }

  lemma HitOnce(h: bv32)
    ensures !(Hit(Xor(h, 0)) && Hit(Xor(h, 1))) && !(Hit(Xor(h, 0)) && Hit(Xor(h, 2)))
    ensures !(Hit(Xor(h, 1)) && Hit(Xor(h, 2)))
  {
  }

  lemma SmallWords()
    ensures Word(0) == 0 && Word(1) == 1 && Word(2) == 2
  {
  }

  /** Of three strings that differ in their last byte at most one can be cut at its end. */
  lemma OneOfThree(b: Bytes)
    ensures var i := |b| + 1;
            || (Uncut(b + [0], i) && Uncut(b + [1], i)) || (Uncut(b + [0], i) && Uncut(b + [2], i))
            || (Uncut(b + [1], i) && Uncut(b + [2], i))
  {
    hide Xor, Times, Hit, Word, Rolling;
    SmallWords();
    var i, w := |b| + 1, Words(b);
    var h := Rolling(w, i - 1, Reach(0), IRRPOLY);
    var h' := if i <= NWINDOW then h else Xor(h, Times(w[i - 1 - NWINDOW], 8 * Reach(0), IRRPOLY));
    HitOnce(Times(h', 8, IRRPOLY));
    LastRolling(b, 0);
    LastRolling(b, 1);
    LastRolling(b, 2);
  }

  lemma LastRolling(b: Bytes, x: Byte)
    ensures var i, w := |b| + 1, Words(b);
            var h := Rolling(w, i - 1, Reach(0), IRRPOLY);
            var h' := if i <= NWINDOW then h else Xor(h, Times(w[i - 1 - NWINDOW], 8 * Reach(0), IRRPOLY));
            Rolling(Words(b + [x]), i, Reach(0), IRRPOLY) == Xor(Times(h', 8, IRRPOLY), Word(x))
  {
    hide Xor, Times, Word;
    assert Words(b + [x])[..|b|] == Words(b)[..|b|];
    RollingPrefix(Words(b + [x]), Words(b), |b|, Reach(0), IRRPOLY);
  }

  /** For every length there are bytes without a cut anywhere, even if the search starts again at one
      place: every byte is 0, 1 or 2, of which each of the two hashes excludes at most one. */
  lemma {:induction false} NoCutTwice(n: nat, jump: nat) returns (b: Bytes)
    ensures |b| == n && forall i: nat :: 1 <= i <= n ==> Uncut(b, i)
    ensures forall i: nat :: 1 <= i && jump + i <= n ==> Uncut(b[jump..], i)
  {
    hide Uncut;
    if n == 0 {
      b := [];
    } else {
      var a := NoCutTwice(n - 1, jump);
      b := Extended(a, jump);
      forall i: nat | 1 <= i <= n
        ensures Uncut(b, i)
      {
        if i < n {
          assert a[..i] == b[..i];
          UncutPrefix(a, b, i);
        }
      }
      forall i: nat | 1 <= i && jump + i <= n
        ensures Uncut(b[jump..], i)
      {
        if jump + i < n {
          assert a[jump..][..i] == b[jump..][..i];
          UncutPrefix(a[jump..], b[jump..], i);
        }
      }
    }
  }

  /** One more byte. */
  lemma Extended(a: Bytes, jump: nat) returns (b: Bytes)
    ensures |b| == |a| + 1 && b[..|a|] == a && Uncut(b, |b|)
    ensures jump < |b| ==> Uncut(b[jump..], |b| - jump)
  {
    hide Uncut;
    OneOfThree(a);
    if jump <= |a| {
      OneOfThree(a[jump..]);
      assert forall x: Byte :: (a + [x])[jump..] == a[jump..] + [x];
      if Uncut(a + [0], |a| + 1) && Uncut((a + [0])[jump..], |a| + 1 - jump) {
        b := a + [0];
      } else if Uncut(a + [1], |a| + 1) && Uncut((a + [1])[jump..], |a| + 1 - jump) {
        b := a + [1];
      } else {
        b := a + [2];
      }
    } else if Uncut(a + [0], |a| + 1) {
      b := a + [0];
    } else {
      b := a + [1];
    }
  }

  /** The search finds nothing in such a string. */
  lemma {:induction false} UncutEnds(b: Bytes)
    requires forall i: nat :: 1 <= i <= |b| ==> Uncut(b, i)
    ensures RabinCut(b) == |b|
  {
    hide Hit, Rolling;
    assert RabinCut(b) < |b| ==> !Uncut(b, RabinCut(b));
  }
}
