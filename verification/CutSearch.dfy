/** Cutting a string by a search that is started again behind every cut. */
module CutSearch {
  import opened Chunks

  /** Where the search for a cut ends in a string: at the cut, or at the end. */
  type Search = Bytes -> nat

  ghost predicate SearchOk(cut: Search) { forall b: Bytes :: b != [] ==> 0 < cut(b) <= |b| }

  /** What follows a string does not change where the search ends inside it. */
  ghost predicate Stable(cut: Search) { forall a: Bytes, b: Bytes :: a != [] ==> StableAt(cut, a, b) }

  predicate StableAt(cut: Search, a: Bytes, b: Bytes) {
    if cut(a) < |a| then cut(a + b) == cut(a) else cut(a + b) >= |a|
  }

  /** The pieces up to each cut in turn, and the rest. */
  function Cuts(cut: Search, b: Bytes): seq<Bytes>
    decreases |b|
  {
    if b == [] then [] else if !(0 < cut(b) < |b|) then [b] else [b[..cut(b)]] + Cuts(cut, b[cut(b)..])
  }

  lemma {:induction false} CutsJoin(cut: Search, b: Bytes)
    ensures Concat(Cuts(cut, b)) == b
    ensures forall i :: 0 <= i < |Cuts(cut, b)| ==> Cuts(cut, b)[i] != []
    decreases |b|
  {
    hide Concat;
    if b == [] {
      NoPieces();
    } else {
      ConcatSingle(b);
      if 0 < cut(b) < |b| {
        var n := cut(b);
        CutsJoin(cut, b[n..]);
        ConcatSingle(b[..n]);
        ConcatAppend([b[..n]], Cuts(cut, b[n..]));
        assert b[..n] + b[n..] == b;
      }
    }
  }

  lemma NoPieces()
    ensures Concat([]) == []
  {
  }

  lemma ConcatSingle(b: Bytes)
    ensures Concat([b]) == b
  {
    assert [b][..0] == [];
  }

  /** A cut found in a part is the first cut of the whole. */
  lemma CutsFirst(cut: Search, a: Bytes, b: Bytes)
    requires SearchOk(cut) && Stable(cut) && a != [] && cut(a) < |a|
    ensures 0 < cut(a) && Cuts(cut, a + b) == [a[..cut(a)]] + Cuts(cut, a[cut(a)..] + b)
  {
    var n := cut(a);
    assert StableAt(cut, a, b);
    assert (a + b)[..n] == a[..n] && (a + b)[n..] == a[n..] + b;
  }

  /** Where piece i begins. */
  function Start(pieces: seq<Bytes>, i: nat): nat
    requires i <= |pieces|
  {
    |Concat(pieces[..i])|
  }

  /** The law that fixes the pieces of a string: a search is started jump bytes behind the beginning of each
      piece, and there is a next piece exactly if it ends inside the string; the next one begins there. */
  ghost predicate FirstCuts(cut: Search, jump: nat, b: Bytes, pieces: seq<Bytes>) {
    && Concat(pieces) == b && (b == [] ==> pieces == [])
    && forall i :: 0 <= i < |pieces| ==> FirstCutAt(cut, jump, b, pieces, i)
  }

  ghost predicate FirstCutAt(cut: Search, jump: nat, b: Bytes, pieces: seq<Bytes>, i: nat)
    requires i < |pieces|
  {
    var from := Start(pieces, i) + jump;
    && (i + 1 < |pieces| <==> from < |b| && from + cut(b[from..]) < |b|)
    && (i + 1 < |pieces| ==> Start(pieces, i + 1) == from + cut(b[from..]))
  }

  lemma FirstCutsNone(cut: Search, jump: nat)
    ensures FirstCuts(cut, jump, [], [])
  {
    NoPieces();
  }

  lemma FirstCutsOne(cut: Search, jump: nat, b: Bytes)
    requires b != [] && !(jump < |b| && jump + cut(b[jump..]) < |b|)
    ensures FirstCuts(cut, jump, b, [b])
  {
    ConcatSingle(b);
    assert [b][..0] == [];
    NoPieces();
  }

  lemma {:induction false} FirstCutsMore(cut: Search, jump: nat, b: Bytes, n: nat, pieces: seq<Bytes>)
    requires jump < n < |b| && n == jump + cut(b[jump..]) && FirstCuts(cut, jump, b[n..], pieces)
    ensures FirstCuts(cut, jump, b, [b[..n]] + pieces)
  {
    hide Concat;
    var p, all := b[..n], [b[..n]] + pieces;
    ConcatSingle(p);
    ConcatAppend([p], pieces);
    assert b == p + b[n..];
    forall i: nat | i <= |pieces|
      ensures Start(all, i + 1) == n + Start(pieces, i)
    {
      assert all[..i + 1] == [p] + pieces[..i];
      ConcatAppend([p], pieces[..i]);
    }
    forall i | 0 <= i < |all|
      ensures FirstCutAt(cut, jump, b, all, i)
    {
      if i == 0 {
        assert all[..0] == [] && pieces[..0] == [];
        NoPieces();
        assert pieces != [] by {
          NoPieces();
        }
      } else {
        assert FirstCutAt(cut, jump, b[n..], pieces, i - 1);
        var from := Start(pieces, i - 1) + jump;
        if from < |b[n..]| {
          assert b[n..][from..] == b[n + from..];
        }
      }
    }
  }

  lemma PieceAt(b: Bytes, pieces: seq<Bytes>, i: nat)
    requires Concat(pieces) == b && i < |pieces|
    ensures Start(pieces, i) <= Start(pieces, i + 1) <= |b|
    ensures pieces[i] == b[Start(pieces, i)..Start(pieces, i + 1)]
  {
    hide Concat;
    var u, v := pieces[..i], pieces[i + 1..];
    assert pieces == u + [pieces[i]] + v && pieces[..i + 1] == u + [pieces[i]];
    ConcatAppend(u + [pieces[i]], v);
    ConcatAppend(u, [pieces[i]]);
    ConcatSingle(pieces[i]);
  }

  lemma {:induction false} SameStarts(
      cut: Search, jump: nat, b: Bytes, ps: seq<Bytes>, qs: seq<Bytes>, n: nat)
    requires FirstCuts(cut, jump, b, ps) && FirstCuts(cut, jump, b, qs) && n < |ps|
    ensures n < |qs| && Start(ps, n) == Start(qs, n) && ((n + 1 < |ps|) <==> (n + 1 < |qs|))
  {
    hide Concat;
    if n == 0 {
      assert ps[..0] == qs[..0] == [];
      NoPieces();
    } else {
      SameStarts(cut, jump, b, ps, qs, n - 1);
      assert FirstCutAt(cut, jump, b, ps, n - 1) && FirstCutAt(cut, jump, b, qs, n - 1);
    }
    assert FirstCutAt(cut, jump, b, ps, n) && FirstCutAt(cut, jump, b, qs, n);
  }

  /** No other pieces obey the law. */
  lemma {:induction false} FirstCutsUnique(cut: Search, jump: nat, b: Bytes, ps: seq<Bytes>, qs: seq<Bytes>)
    requires FirstCuts(cut, jump, b, ps) && FirstCuts(cut, jump, b, qs)
    ensures ps == qs
  {
    hide Concat, FirstCutAt;
    if ps == [] || qs == [] {
      NoPieces();
    } else {
      SameStarts(cut, jump, b, ps, qs, |ps| - 1);
      assert |ps| == |qs| && ps[..|ps|] == ps && qs[..|qs|] == qs;
      forall i: nat | i < |ps|
        ensures ps[i] == qs[i]
      {
        SameStarts(cut, jump, b, ps, qs, i);
        if i + 1 < |ps| {
          SameStarts(cut, jump, b, ps, qs, i + 1);
        }
        PieceAt(b, ps, i);
        PieceAt(b, qs, i);
      }
    }
  }

  /** The pieces of Cuts are those the law asks for, with no jump. */
  lemma {:induction false} CutsLaw(cut: Search, b: Bytes)
    requires SearchOk(cut)
    ensures FirstCuts(cut, 0, b, Cuts(cut, b))
    decreases |b|
  {
    hide FirstCuts;
    if b == [] {
      FirstCutsNone(cut, 0);
    } else {
      assert b[0..] == b;
      if cut(b) < |b| {
        CutsLaw(cut, b[cut(b)..]);
        FirstCutsMore(cut, 0, b, cut(b), Cuts(cut, b[cut(b)..]));
      } else {
        FirstCutsOne(cut, 0, b);
      }
    }
  }

  /** The cuts of each piece, one after another. */
  function AllCuts(cut: Search, pieces: seq<Bytes>): seq<Bytes> {
    if pieces == [] then [] else AllCuts(cut, pieces[..|pieces| - 1]) + Cuts(cut, pieces[|pieces| - 1])
  }

  lemma {:induction false} AllCutsJoin(cut: Search, pieces: seq<Bytes>)
    ensures Concat(AllCuts(cut, pieces)) == Concat(pieces)
    ensures forall i :: 0 <= i < |AllCuts(cut, pieces)| ==> AllCuts(cut, pieces)[i] != []
  {
    if pieces != [] {
      var n := |pieces| - 1;
      AllCutsJoin(cut, pieces[..n]);
      CutsJoin(cut, pieces[n]);
      ConcatAppend(AllCuts(cut, pieces[..n]), Cuts(cut, pieces[n]));
    }
  }

  /** The data of chunks, and chunks with given data. */
  function Datas(cs: seq<Chunk>): (ds: seq<Bytes>)
    ensures |ds| == |cs| && forall i :: 0 <= i < |ds| ==> ds[i] == cs[i].data
  {
    seq(|cs|, (i: nat) requires i < |cs| => cs[i].data)
  }

  function Wrapped(ds: seq<Bytes>): (cs: seq<Chunk>)
    ensures |cs| == |ds| && Datas(cs) == ds
  {
    seq(|ds|, (i: nat) requires i < |ds| => Chunk(0, i, false, ds[i]))
  }

  lemma {:induction false} DataIsConcat(cs: seq<Chunk>)
    ensures DataOf(cs) == Concat(Datas(cs))
  {
    if cs != [] {
      DataIsConcat(cs[..|cs| - 1]);
      assert Datas(cs)[..|cs| - 1] == Datas(cs[..|cs| - 1]);
    }
  }
}
