/** The linked list of chunks that the tasks of the encoder build together: its links, and what a split does. */
module TaskList {
  import opened Chunks

  /** A chunk is known by its address. */
  type Id = nat

  /** The part of the input that a chunk holds. */
  datatype Piece = Piece(lo: nat, hi: nat)

  function Head(l: seq<Id>): Option<Id> { if l == [] then None else Some(l[0]) }

  predicate Distinct(l: seq<Id>) { forall i, j :: 0 <= i < j < |l| ==> l[i] != l[j] }

  /** Following the links visits the chunks of the list, in order. */
  predicate Linked(next: map<Id, Option<Id>>, l: seq<Id>) {
    && Distinct(l)
    && forall i :: 0 <= i < |l| ==> l[i] in next && next[l[i]] == Head(l[i + 1..])
  }

  /** The chunks hold the input from one place to another without gap or overlap, and none is empty. */
  predicate Covers(piece: map<Id, Piece>, l: seq<Id>, lo: nat, hi: nat) {
    if l == [] then lo == hi
    else l[0] in piece && piece[l[0]].lo == lo < piece[l[0]].hi && Covers(piece, l[1..], piece[l[0]].hi, hi)
  }

  lemma HeadAppend(a: seq<Id>, b: seq<Id>)
    ensures Head(a + b) == if a == [] then Head(b) else Head(a)
  {
  }

  lemma Inserted(a: seq<Id>, c: Id, b: seq<Id>, t: Id, i: nat)
    requires i < |a| + |b| + 2
    ensures (a + [c, t] + b)[i] ==
            if i <= |a| then (a + [c] + b)[i] else if i == |a| + 1 then t else (a + [c] + b)[i - 1]
    ensures Head((a + [c, t] + b)[i + 1..]) ==
            if i < |a| then Head((a + [c] + b)[i + 1..]) else if i == |a| then Some(t) else Head((a + [c] + b)[i..])
  {
  }

  lemma SplitDistinct(a: seq<Id>, c: Id, b: seq<Id>, t: Id)
    requires Distinct(a + [c] + b) && t !in a + [c] + b
    ensures Distinct(a + [c, t] + b)
  {
    var l, l' := a + [c] + b, a + [c, t] + b;
    forall i, j | 0 <= i < j < |l'|
      ensures l'[i] != l'[j]
    {
      Inserted(a, c, b, t, i);
      Inserted(a, c, b, t, j);
    }
  }

  /** A split: c keeps the first part, and t with the rest is put behind c. */
  lemma SplitLinked(next: map<Id, Option<Id>>, a: seq<Id>, c: Id, b: seq<Id>, t: Id)
    requires Linked(next, a + [c] + b) && t !in next
    ensures c in next && Linked(next[t := next[c]][c := Some(t)], a + [c, t] + b)
  {
    hide Distinct, Head;
    var l, l' := a + [c] + b, a + [c, t] + b;
    assert l[|a|] == c;
    SplitDistinct(a, c, b, t);
    var next' := next[t := next[c]][c := Some(t)];
    forall i | 0 <= i < |l'|
      ensures l'[i] in next' && next'[l'[i]] == Head(l'[i + 1..])
    {
      Inserted(a, c, b, t, i);
      Different(l, i, |a|);
      Different(l, i - 1, |a|);
    }
  }

  lemma Different(l: seq<Id>, i: int, j: nat)
    requires Distinct(l) && j < |l|
    ensures 0 <= i < |l| && i != j ==> l[i] != l[j]
  {
  }

  /** A new chunk is linked behind the last. */
  lemma AppendLinked(next: map<Id, Option<Id>>, l: seq<Id>, t: Id)
    requires Linked(next, l) && t !in next
    ensures l == [] ==> Linked(next[t := None], [t])
    ensures l != [] ==> Linked(next[t := None][l[|l| - 1] := Some(t)], l + [t])
  {
    if l != [] {
      var n := |l| - 1;
      assert l == l[..n] + [l[n]] + [];
      assert l[n + 1..] == [];
      SplitLinked(next, l[..n], l[n], [], t);
      assert l + [t] == l[..n] + [l[n], t] + [];
    }
  }

  lemma LinkedAt(next: map<Id, Option<Id>>, a: seq<Id>, c: Id, b: seq<Id>)
    requires Linked(next, a + [c] + b)
    ensures c in next && next[c] == Head(b)
  {
    var l := a + [c] + b;
    assert l[|a|] == c && l[|a| + 1..] == b;
  }

  lemma {:induction false} CoversAppend(piece: map<Id, Piece>, a: seq<Id>, b: seq<Id>, lo: nat, mid: nat, hi: nat)
    requires Covers(piece, a, lo, mid) && Covers(piece, b, mid, hi)
    ensures Covers(piece, a + b, lo, hi)
    decreases |a|
  {
    if a == [] {
      assert a + b == b;
    } else {
      CoversAppend(piece, a[1..], b, piece[a[0]].hi, mid, hi);
      assert (a + b)[1..] == a[1..] + b;
    }
  }

  lemma {:induction false} CoversSplit(piece: map<Id, Piece>, a: seq<Id>, b: seq<Id>, lo: nat, hi: nat)
    returns (mid: nat)
    requires Covers(piece, a + b, lo, hi)
    ensures Covers(piece, a, lo, mid) && Covers(piece, b, mid, hi)
    decreases |a|
  {
    if a == [] {
      assert a + b == b;
      mid := lo;
    } else {
      assert (a + b)[1..] == a[1..] + b;
      mid := CoversSplit(piece, a[1..], b, piece[a[0]].hi, hi);
    }
  }

  lemma {:induction false} CoversSame(piece: map<Id, Piece>, piece': map<Id, Piece>, l: seq<Id>, lo: nat, hi: nat)
    requires Covers(piece, l, lo, hi) && forall x :: x in l && x in piece ==> x in piece' && piece'[x] == piece[x]
    ensures Covers(piece', l, lo, hi)
    decreases |l|
  {
    if l != [] {
      CoversSame(piece, piece', l[1..], piece[l[0]].hi, hi);
    }
  }

  lemma SplitCovers(piece: map<Id, Piece>, a: seq<Id>, c: Id, b: seq<Id>, t: Id, mid: nat, lo: nat, hi: nat)
    requires Covers(piece, a + [c] + b, lo, hi) && Distinct(a + [c] + b) && c in piece
    requires piece[c].lo < mid < piece[c].hi
    requires t !in a + [c] + b
    ensures Covers(piece[t := Piece(mid, piece[c].hi)][c := Piece(piece[c].lo, mid)], a + [c, t] + b, lo, hi)
  {
    var piece' := piece[t := Piece(mid, piece[c].hi)][c := Piece(piece[c].lo, mid)];
    var l := a + [c] + b;
    assert l == a + ([c] + b) && l[|a|] == c;
    forall x | x in a || x in b
      ensures x != c && x != t
    {
      if x in a {
        var i :| 0 <= i < |a| && a[i] == x;
        assert l[i] == x;
      } else {
        var i :| 0 <= i < |b| && b[i] == x;
        assert l[|a| + 1 + i] == x;
      }
    }
    var m := CoversSplit(piece, a, [c] + b, lo, hi);
    assert ([c] + b)[1..] == b;
    CoversSame(piece, piece', a, lo, m);
    CoversSame(piece, piece', b, piece[c].hi, hi);
    assert ([c, t] + b)[1..] == [t] + b && ([t] + b)[1..] == b;
    assert Covers(piece', [t] + b, mid, hi);
    assert Covers(piece', [c, t] + b, m, hi);
    CoversAppend(piece', a, [c, t] + b, lo, m, hi);
    assert a + [c, t] + b == a + ([c, t] + b);
  }

  /** What write_all_chunks_to_file does: it follows the links to the end. */
  function Walk(next: map<Id, Option<Id>>, first: Option<Id>, fuel: nat): seq<Id>
    decreases fuel
  {
    if fuel == 0 || first == None || first.value !in next then []
    else [first.value] + Walk(next, next[first.value], fuel - 1)
  }

  lemma {:induction false} WalkVisits(next: map<Id, Option<Id>>, l: seq<Id>, i: nat, fuel: nat)
    requires Linked(next, l) && i <= |l| && fuel >= |l| - i
    ensures Walk(next, Head(l[i..]), fuel) == l[i..]
    decreases fuel
  {
    if i < |l| {
      WalkVisits(next, l, i + 1, fuel - 1);
      assert l[i..] == [l[i]] + l[i + 1..];
    }
  }

  /** The bytes of a chunk. */
  function ChunkData(input: Bytes, piece: map<Id, Piece>, x: Id): Bytes {
    if x in piece && piece[x].lo <= piece[x].hi <= |input| then input[piece[x].lo..piece[x].hi] else []
  }

  /** The bytes of the chunks of the list. */
  function BytesOf(input: Bytes, piece: map<Id, Piece>, l: seq<Id>): Bytes {
    if l == [] then []
    else
      ChunkData(input, piece, l[0]) + BytesOf(input, piece, l[1..])
  }

  lemma {:induction false} CoversBound(piece: map<Id, Piece>, l: seq<Id>, lo: nat, hi: nat)
    requires Covers(piece, l, lo, hi)
    ensures lo <= hi
    decreases |l|
  {
    if l != [] {
      CoversBound(piece, l[1..], piece[l[0]].hi, hi);
    }
  }

  lemma {:induction false} CoversData(input: Bytes, piece: map<Id, Piece>, l: seq<Id>, lo: nat, hi: nat)
    requires Covers(piece, l, lo, hi) && hi <= |input|
    ensures lo <= hi && BytesOf(input, piece, l) == input[lo..hi]
    decreases |l|
  {
    CoversBound(piece, l, lo, hi);
    if l != [] {
      var m := piece[l[0]].hi;
      CoversBound(piece, l[1..], m, hi);
      CoversData(input, piece, l[1..], m, hi);
      assert input[lo..hi] == input[lo..m] + input[m..hi];
    }
  }
}
