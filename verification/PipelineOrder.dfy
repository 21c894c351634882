/** Reordering: the chunks written so far are, at every moment, an initial part of the stream. */
module PipelineOrder {
  import opened Chunks
  import opened Pipeline
  import opened PipelineShutdown
  import opened PipelineFlow
  import opened PipelineConserve
  import opened PipelineStore

  /** All chunks numbered below n, in stream order. */
  function Prefix(fine: seq<seq<Chunk>>, n: SeqNum): seq<Chunk>
    requires n.l1 <= |fine| && (n.l1 < |fine| ==> n.l2 <= |fine[n.l1]|)
  {
    Flat(fine[..n.l1]) + (if n.l1 < |fine| then fine[n.l1][..n.l2] else [])
  }

  /** n can be the number the reorder thread waits for: everything below it has been cut, and it is
      not the end of a finished coarse piece. */
  predicate NextOk(fine: seq<seq<Chunk>>, n: SeqNum) {
    && n.l1 <= |fine|
    && (if n.l1 < |fine| then n.l2 <= |fine[n.l1]| &&
         (n.l2 == |fine[n.l1]| ==> !PieceClosed(fine[n.l1])) else n.l2 == 0)
    && (forall i :: 0 <= i < n.l1 ==> PieceClosed(fine[i]))
  }

  predicate LastArrived(fine: seq<seq<Chunk>>, r: Reorderer, l: nat) {
    l < |fine| && PieceClosed(fine[l]) && ArrivedCount(r, fine[l][|fine[l]| - 1]) > 0
  }

  /** chunks_per_anchor knows the size of a coarse piece as soon as its last chunk has arrived. */
  predicate SizeAt(fine: seq<seq<Chunk>>, r: Reorderer, l: nat) {
    (l in r.cpa <==> LastArrived(fine, r, l)) && (l in r.cpa ==> r.cpa[l] == |fine[l]|)
  }

  ghost predicate OrderInv(s: State) {
    && NextOk(s.fine, s.re.next)
    && s.re.written == Prefix(s.fine, s.re.next)
    && (forall l :: SizeAt(s.fine, s.re, l))
    && |s.re.writing| <= 1
    && (s.re.writing != [] ==> s.re.writing[0].Id() == s.re.next)
    && (s.re.writing == [] ==> forall x :: InTree(s.re.tree, x) ==> x.Id() != s.re.next)
  }

  /** Membership in the prefix is comparison of sequence numbers. */
  lemma {:induction false} FlatMember(coarse: seq<Bytes>, fine: seq<seq<Chunk>>, x: Chunk)
    requires HistoryOk(coarse, fine)
    ensures x in Flat(fine) <==> Created(fine, x)
  {
    if fine != [] {
      var n := |fine| - 1;
      FlatMember(coarse[..n], fine[..n], x);
      assert PieceOk(n, coarse[n], fine[n]);
    }
  }

  lemma PrefixMember(coarse: seq<Bytes>, fine: seq<seq<Chunk>>, n: SeqNum, x: Chunk)
    requires HistoryOk(coarse, fine) && NextOk(fine, n)
    ensures x in Prefix(fine, n) <==> Created(fine, x) && SeqLt(x.Id(), n)
  {
    FlatMember(coarse[..n.l1], fine[..n.l1], x);
    if n.l1 < |fine| {
      assert PieceOk(n.l1, coarse[n.l1], fine[n.l1]);
    }
  }

  /** One more chunk is written and the number advances. */
  lemma PrefixAdvance(coarse: seq<Bytes>, fine: seq<seq<Chunk>>, n: SeqNum, closed: bool)
    requires HistoryOk(coarse, fine) && NextOk(fine, n) && Known(fine, n)
    requires closed <==> PieceClosed(fine[n.l1]) && n.l2 + 1 == |fine[n.l1]|
    ensures var n' := if closed then IncL1(n) else IncL2(n);
            NextOk(fine, n') && Prefix(fine, n') == Prefix(fine, n) + [At(fine, n)]
  {
    var row := fine[n.l1];
    assert row[..n.l2 + 1] == row[..n.l2] + [row[n.l2]];
    if closed {
      assert fine[..n.l1 + 1][..n.l1] == fine[..n.l1];
      assert Flat(fine[..n.l1 + 1]) == Flat(fine[..n.l1]) + row;
      assert row[..n.l2 + 1] == row;
      if n.l1 + 1 < |fine| {
        assert PieceOk(n.l1 + 1, coarse[n.l1 + 1], fine[n.l1 + 1]);
        assert fine[n.l1 + 1][..0] == [];
      }
    }
  }

  /** New chunks are cut behind everything that was written. */
  lemma PrefixGrow(fine: seq<seq<Chunk>>, n: SeqNum, c: Chunk)
    requires NextOk(fine, n) && c.l1 < |fine| && !PieceClosed(fine[c.l1])
    ensures var fine' := fine[c.l1 := fine[c.l1] + [c]];
            NextOk(fine', n) && Prefix(fine', n) == Prefix(fine, n)
  {
    var fine' := fine[c.l1 := fine[c.l1] + [c]];
    assert fine'[..n.l1] == fine[..n.l1];
    if n.l1 < |fine| {
      assert fine'[n.l1][..n.l2] == fine[n.l1][..n.l2];
    }
  }

  lemma PrefixNewPiece(fine: seq<seq<Chunk>>, n: SeqNum)
    requires NextOk(fine, n)
    ensures NextOk(fine + [[]], n) && Prefix(fine + [[]], n) == Prefix(fine, n)
  {
    var fine' := fine + [[]];
    assert fine'[..n.l1] == fine[..n.l1];
  }

  lemma InitOrder(p: Params)
    ensures OrderInv(Init(p))
  {
  }

  lemma SameOrder(s: State, s': State)
    requires OrderInv(s) && s'.fine == s.fine
    requires s'.re.next == s.re.next && s'.re.written == s.re.written && s'.re.writing == s.re.writing
    requires s'.re.tree == s.re.tree && s'.re.cpa == s.re.cpa
    ensures OrderInv(s')
  {
    forall l: nat
      ensures SizeAt(s'.fine, s'.re, l)
    {
      assert SizeAt(s.fine, s.re, l);
      if l < |s.fine| && PieceClosed(s.fine[l]) {
        var x := s.fine[l][|s.fine[l]| - 1];
        assert ArrivedCount(s'.re, x) == ArrivedCount(s.re, x);
      }
    }
  }

  lemma NewPieceOrder(s: State, s': State)
    requires OrderInv(s) && s'.fine == s.fine + [[]] && s'.re == s.re
    ensures OrderInv(s')
  {
    PrefixNewPiece(s.fine, s.re.next);
    forall l: nat
      ensures SizeAt(s'.fine, s'.re, l)
    {
      assert SizeAt(s.fine, s.re, l);
    }
  }

  lemma EmitOrder(p: Params, s: State, t: nat, piece: Chunk, cur: seq<Chunk>)
    requires Shape(p, s) && FlowInv(p, s) && OrderInv(s) && t < p.nthreads && CanRefine(p, s, t)
    requires Splits(p, s, t, piece, cur)
    ensures OrderInv(EmitFine(s, t, piece, cur))
  {
    var s' := EmitFine(s, t, piece, cur);
    EmitHistory(p, s, t, piece, cur);
    PrefixGrow(s.fine, s.re.next, piece);
    assert FlowAt(p, s, piece);
    assert s'.re == s.re;
    forall l: nat
      ensures SizeAt(s'.fine, s.re, l)
    {
      EmitSize(s.fine, s.re, piece, l);
    }
  }

  /** A chunk just cut has not arrived, so it does not yet determine the size of its piece. */
  lemma EmitSize(fine: seq<seq<Chunk>>, r: Reorderer, piece: Chunk, l: nat)
    requires piece.l1 < |fine| && !PieceClosed(fine[piece.l1]) && ArrivedCount(r, piece) == 0
    requires SizeAt(fine, r, l)
    ensures SizeAt(fine[piece.l1 := fine[piece.l1] + [piece]], r, l)
  {
  }

  /** The assertion at encoder_orig.h:1561 holds: the size of a coarse piece is set only once. */
  lemma SizeSetOnce(p: Params, s: State)
    requires Shape(p, s) && FlowInv(p, s) && OrderInv(s) && s.re.recv != [] && s.re.recv[0].last
    ensures s.re.recv[0].l1 !in s.re.cpa
  {
    var c := s.re.recv[0];
    ArriveFresh(p, s);
    assert PieceOk(c.l1, s.coarse[c.l1], s.fine[c.l1]);
    assert SizeAt(s.fine, s.re, c.l1);
  }

  lemma ArriveOrder(p: Params, s: State)
    requires Shape(p, s) && FlowInv(p, s) && OrderInv(s) && s.re.writing == [] && s.re.recv != []
    ensures OrderInv(s.(re := DoArrive(s.re)))
  {
    var s', c := s.(re := DoArrive(s.re)), s.re.recv[0];
    ArriveFresh(p, s);
    forall l: nat
      ensures SizeAt(s'.fine, s'.re, l)
    {
      ArriveSize(s.coarse, s.fine, s.re, l);
    }
  }

  /** The arrival of a last chunk is the moment the size of its piece becomes known. */
  lemma ArriveSize(coarse: seq<Bytes>, fine: seq<seq<Chunk>>, r: Reorderer, l: nat)
    requires HistoryOk(coarse, fine) && r.writing == [] && r.recv != [] && Created(fine, r.recv[0])
    requires ArrivedCount(r, r.recv[0]) == 0 && SizeAt(fine, r, l)
    ensures SizeAt(fine, DoArrive(r), l)
  {
    var c := r.recv[0];
    assert PieceOk(c.l1, coarse[c.l1], fine[c.l1]);
    if l < |fine| && PieceClosed(fine[l]) {
      assert PieceOk(l, coarse[l], fine[l]);
      ArriveCounts(r, fine[l][|fine[l]| - 1]);
    }
  }

  /** A cached chunk has not been written, so its number is not below the expected one. */
  lemma CachedNotBelow(p: Params, s: State, n: SeqNum, x: Chunk)
    requires Shape(p, s) && FlowInv(p, s) && InTree(s.re.tree, x)
    requires NextOk(s.fine, n) && s.re.written + s.re.writing == Prefix(s.fine, n)
    ensures Created(s.fine, x) && !SeqLt(x.Id(), n)
  {
    assert FlowAt(p, s, x);
    CountAppend(s.re.written, s.re.writing, x);
    CountMember(s.re.written + s.re.writing, x);
    PrefixMember(s.coarse, s.fine, n, x);
  }

  /** If the next chunk is cached, the writing loop finds it at the minimum of the minimum heap. */
  lemma NextIsMin(p: Params, s: State, n: SeqNum, x: Chunk)
    requires Shape(p, s) && FlowInv(p, s) && InTree(s.re.tree, x) && x.Id() == n
    requires NextOk(s.fine, n) && s.re.written + s.re.writing == Prefix(s.fine, n)
    ensures TakesNext(s.re.tree, n, x)
  {
    forall k | k in s.re.tree
      ensures n.l1 <= k
    {
      var y :| y in s.re.tree[k];
      CachedNotBelow(p, s, n, y);
    }
    forall y | y in s.re.tree[n.l1]
      ensures x.l2 <= y.l2
    {
      CachedNotBelow(p, s, n, y);
    }
  }

  /** The number after the write, and the prefix it stands for. */
  lemma WriteAdvance(p: Params, s: State)
    requires Shape(p, s) && FlowInv(p, s) && OrderInv(s) && |s.re.writing| == 1
    ensures var n' := Advance(s.re.next, s.re.cpa);
            NextOk(s.fine, n') && s.re.written + s.re.writing == Prefix(s.fine, n')
  {
    var c, n := s.re.writing[0], s.re.next;
    assert s.re.writing == [c];
    CountOne(c, c);
    LiveKnown(p, s, c);
    assert SizeAt(s.fine, s.re, n.l1);
    var closed := PieceClosed(s.fine[n.l1]) && n.l2 + 1 == |s.fine[n.l1]|;
    if closed {
      assert s.fine[n.l1][|s.fine[n.l1]| - 1] == c;
    }
    PrefixAdvance(s.coarse, s.fine, n, closed);
  }

  /** After a write nothing at hand means that no chunk with the next number is cached. */
  lemma WriteNext(s: State)
    requires CanWrite(s)
    ensures var r, r' := s.re, DoWrite(s).re;
            && r'.next == Advance(r.next, r.cpa) && r'.cpa == r.cpa && r'.written == r.written + r.writing &&
                 |r'.writing| <= 1
            && (r'.writing != [] ==> r'.writing[0].Id() == r'.next)
            && (r'.writing == [] ==> r'.tree == r.tree && forall x :: !TakesNext(r.tree, r'.next, x))
            && DoWrite(s).fine == s.fine
  {
    assert s.re.writing == [s.re.writing[0]];
  }

  lemma WriteSizes(p: Params, s: State)
    requires Shape(p, s) && FlowInv(p, s) && OrderInv(s) && CanWrite(s)
    ensures forall l :: SizeAt(s.fine, DoWrite(s).re, l)
  {
    hide DoWrite, CanWrite, ArrivedCount, FlowAt, Prefix;
    WriteNext(s);
    forall l: nat
      ensures SizeAt(s.fine, DoWrite(s).re, l)
    {
      assert SizeAt(s.fine, s.re, l);
      if l < |s.fine| && PieceClosed(s.fine[l]) {
        WriteCounts(s, s.fine[l][|s.fine[l]| - 1]);
      }
    }
  }

  lemma WriteOrder(p: Params, s: State)
    requires Shape(p, s) && FlowInv(p, s) && OrderInv(s) && CanWrite(s)
    ensures OrderInv(DoWrite(s))
  {
    hide DoWrite, CanWrite, FlowInv, SizeAt, Prefix, TakesNext, Advance;
    var s' := DoWrite(s);
    WritingOne(s);
    WriteAdvance(p, s);
    WriteNext(s);
    WriteSizes(p, s);
    if s'.re.writing == [] {
      forall x | InTree(s'.re.tree, x)
        ensures x.Id() != s'.re.next
      {
        if x.Id() == s'.re.next {
          NextIsMin(p, s, s'.re.next, x);
        }
      }
    }
  }

  lemma WritingOne(s: State)
    requires CanWrite(s)
    ensures |s.re.writing| == 1
  {
  }

  /** Every step keeps the order of the output. */
  lemma StepOrder(p: Params, s: State, a: Step)
    requires ShutdownInv(p, s) && FlowInv(p, s) && OrderInv(s) && Enabled(p, s, a)
    ensures OrderInv(Apply(p, s, a))
  {
    hide OrderInv, FlowInv, DoFragRead, DoFragCut, DoFragFlush, DoFragTerminate, DoFetch, DoFlush, DoFlushR;
    hide DoTerminate, DoRefineBegin, DoRefineCut, DoRefineEnd, DoDedup, DoCompress, DoPoll, DoPollMiss, DoArrive;
    hide DoWrite;
    match a
    case FragRead => FragOrder(p, s, a);
    case FragCut(_) => FragOrder(p, s, a);
    case RefineCut(t, pos) => RefineOrder(p, s, a);
    case RefineEnd(t) => RefineOrder(p, s, a);
    case Arrive => ArriveOrder(p, s);
    case Write => WriteOrder(p, s);
    case FragKeep => OtherOrder(p, s, a);
    case FragFlush => OtherOrder(p, s, a);
    case FragTerminate => OtherOrder(p, s, a);
    case HangUp(_, _) => OtherOrder(p, s, a);
    case RefineBegin(_) => OtherOrder(p, s, a);
    case Poll => OtherOrder(p, s, a);
    case PollMiss => OtherOrder(p, s, a);
    case Finish => OtherOrder(p, s, a);
    case _ => WorkerOrder(p, s, a);
  }

  lemma FragOrder(p: Params, s: State, a: Step)
    requires ShutdownInv(p, s) && OrderInv(s) && Enabled(p, s, a) && (a.FragRead? || a.FragCut?)
    ensures OrderInv(Apply(p, s, a))
  {
    var s' := Apply(p, s, a);
    if s'.fine == s.fine {
      SameOrder(s, s');
    } else {
      NewPieceOrder(s, s');
    }
  }

  lemma RefineOrder(p: Params, s: State, a: Step)
    requires ShutdownInv(p, s) && FlowInv(p, s) && OrderInv(s) && Enabled(p, s, a) && (a.RefineCut? || a.RefineEnd?)
    ensures OrderInv(Apply(p, s, a))
  {
    hide OrderInv, FlowInv;
    if a.RefineCut? {
      RefineCutOrder(p, s, a.t, a.pos);
    } else {
      RefineEndOrder(p, s, a.t);
    }
  }

  lemma RefineCutOrder(p: Params, s: State, t: nat, pos: nat)
    requires Shape(p, s) && FlowInv(p, s) && OrderInv(s) && t < p.nthreads && CanRefine(p, s, t)
    requires 0 < pos < |s.pools[0][t].cur[0].data|
    ensures OrderInv(DoRefineCut(p, s, t, pos))
  {
    hide OrderInv;
    var w := s.pools[0][t];
    var c := w.cur[0];
    CurIsOpen(p, s, t);
    assert c.data == c.data[..pos] + c.data[pos..];
    EmitOrder(p, s, t, Chunk(c.l1, w.chcount, false, c.data[..pos]), [c.(data := c.data[pos..])]);
  }

  lemma RefineEndOrder(p: Params, s: State, t: nat)
    requires Shape(p, s) && FlowInv(p, s) && OrderInv(s) && t < p.nthreads && CanRefine(p, s, t)
    ensures OrderInv(DoRefineEnd(p, s, t))
  {
    hide OrderInv;
    var w := s.pools[0][t];
    var c := w.cur[0];
    CurIsOpen(p, s, t);
    assert PieceOk(c.l1, s.coarse[c.l1], s.fine[c.l1]);
    EmitOrder(p, s, t, Chunk(c.l1, w.chcount, true, c.data), []);
  }

  lemma OtherOrder(p: Params, s: State, a: Step)
    requires ShutdownInv(p, s) && OrderInv(s) && Enabled(p, s, a)
    requires a.FragKeep? || a.FragFlush? || a.FragTerminate? || a.HangUp? || a.RefineBegin? || a.Poll? || a.PollMiss? ||
             a.Finish?
    ensures OrderInv(Apply(p, s, a))
  {
    SameOrder(s, Apply(p, s, a));
  }

  lemma WorkerOrder(p: Params, s: State, a: Step)
    requires ShutdownInv(p, s) && OrderInv(s) && Enabled(p, s, a)
    requires a.Fetch? || a.Flush? || a.FlushR? || a.Terminate? || a.Dedup? || a.Compress?
    ensures OrderInv(Apply(p, s, a))
  {
    SameOrder(s, Apply(p, s, a));
  }
}
