/** The unit of work of dedup, and sums of chunk multisets over the places that can hold one. */
module Chunks {

  type Byte = b: nat | b < 256

  type Bytes = seq<Byte>

  datatype Option<+T> = None | Some(value: T)

  /** The two-level sequence number of a chunk: coarse piece, then position inside it. */
  datatype SeqNum = SeqNum(l1: nat, l2: nat)

  predicate SeqLt(a: SeqNum, b: SeqNum) {
    if a.l1 < b.l1 then true else a.l1 == b.l1 && a.l2 < b.l2
  }

  function IncL1(s: SeqNum): SeqNum { SeqNum(s.l1 + 1, 0) }

  function IncL2(s: SeqNum): SeqNum { SeqNum(s.l1, s.l2 + 1) }

  /** A chunk as it travels between stages; `last` marks the final chunk of its coarse piece. */
  datatype Chunk = Chunk(l1: nat, l2: nat, last: bool, data: Bytes) {
    function Id(): SeqNum { SeqNum(l1, l2) }
  }

  function Concat(pieces: seq<Bytes>): Bytes {
    if pieces == [] then [] else Concat(pieces[..|pieces| - 1]) + pieces[|pieces| - 1]
  }

  lemma {:induction false} ConcatAppend(a: seq<Bytes>, b: seq<Bytes>)
    ensures Concat(a + b) == Concat(a) + Concat(b)
  {
    if b == [] {
      assert a + b == a;
    } else {
      var n := |b| - 1;
      assert (a + b)[..|a + b| - 1] == a + b[..n];
      ConcatAppend(a, b[..n]);
    }
  }

  /** The bytes carried by a list of chunks. */
  function DataOf(cs: seq<Chunk>): Bytes {
    if cs == [] then [] else DataOf(cs[..|cs| - 1]) + cs[|cs| - 1].data
  }

  lemma {:induction false} DataOfAppend(a: seq<Chunk>, b: seq<Chunk>)
    ensures DataOf(a + b) == DataOf(a) + DataOf(b)
  {
    if b == [] {
      assert a + b == a;
    } else {
      var n := |b| - 1;
      assert (a + b)[..|a + b| - 1] == a + b[..n];
      DataOfAppend(a, b[..n]);
    }
  }

  /** All chunks of all coarse pieces, in stream order. */
  function Flat(fine: seq<seq<Chunk>>): seq<Chunk> {
    if fine == [] then [] else Flat(fine[..|fine| - 1]) + fine[|fine| - 1]
  }

  lemma {:induction false} FlatAppend(a: seq<seq<Chunk>>, b: seq<seq<Chunk>>)
    ensures Flat(a + b) == Flat(a) + Flat(b)
  {
    if b == [] {
      assert a + b == a;
    } else {
      var n := |b| - 1;
      assert (a + b)[..|a + b| - 1] == a + b[..n];
      FlatAppend(a, b[..n]);
    }
  }

  /** How often x occurs in a buffer. */
  function Count(s: seq<Chunk>, x: Chunk): nat {
    if s == [] then 0 else Count(s[..|s| - 1], x) + (if s[|s| - 1] == x then 1 else 0)
  }

  lemma {:induction false} CountAppend(a: seq<Chunk>, b: seq<Chunk>, x: Chunk)
    ensures Count(a + b, x) == Count(a, x) + Count(b, x)
  {
    if b == [] {
      assert a + b == a;
    } else {
      var n := |b| - 1;
      assert (a + b)[..|a + b| - 1] == a + b[..n];
      CountAppend(a, b[..n], x);
    }
  }

  lemma CountSplit(s: seq<Chunk>, n: nat, x: Chunk)
    requires n <= |s|
    ensures Count(s, x) == Count(s[..n], x) + Count(s[n..], x)
  {
    assert s == s[..n] + s[n..];
    CountAppend(s[..n], s[n..], x);
  }

  lemma CountFirst(s: seq<Chunk>, x: Chunk)
    requires s != []
    ensures Count(s, x) == (if s[0] == x then 1 else 0) + Count(s[1..], x)
  {
    CountSplit(s, 1, x);
    assert s[..1][..0] == [];
  }

  lemma {:induction false} CountMember(s: seq<Chunk>, x: Chunk)
    ensures x in s <==> Count(s, x) > 0
  {
    if s != [] {
      CountMember(s[..|s| - 1], x);
      assert s == s[..|s| - 1] + [s[|s| - 1]];
    }
  }

  /** The sum over a sequence of places of the number of x that f finds in each. */
  ghost function Sum<T>(f: (T, Chunk) -> nat, ts: seq<T>, x: Chunk): nat {
    if ts == [] then 0 else Sum(f, ts[..|ts| - 1], x) + f(ts[|ts| - 1], x)
  }

  lemma {:induction false} SumUpdate<T>(f: (T, Chunk) -> nat, ts: seq<T>, i: nat, t: T, x: Chunk)
    requires i < |ts|
    ensures Sum(f, ts[i := t], x) + f(ts[i], x) == Sum(f, ts, x) + f(t, x)
    ensures f(ts[i], x) <= Sum(f, ts, x)
  {
    var n := |ts| - 1;
    if i < n {
      SumUpdate(f, ts[..n], i, t, x);
      assert ts[i := t][..n] == ts[..n][i := t];
    } else {
      assert ts[i := t][..n] == ts[..n];
    }
  }

  /** Two places that both hold x make the sum at least two. */
  lemma {:induction false} SumTwo<T>(f: (T, Chunk) -> nat, ts: seq<T>, i: nat, j: nat, x: Chunk)
    requires i < j < |ts|
    ensures f(ts[i], x) + f(ts[j], x) <= Sum(f, ts, x)
  {
    var n := |ts| - 1;
    if j < n {
      SumTwo(f, ts[..n], i, j, x);
    } else {
      SumUpdate(f, ts[..n], i, ts[i], x);
    }
  }

  lemma {:induction false} SumZero<T>(f: (T, Chunk) -> nat, ts: seq<T>, x: Chunk)
    requires forall i :: 0 <= i < |ts| ==> f(ts[i], x) == 0
    ensures Sum(f, ts, x) == 0
  {
    if ts != [] {
      SumZero(f, ts[..|ts| - 1], x);
    }
  }
}
